/**
 * Courier sessions (`pos.livraison.session`, models/pos_livraison.py:362-422): the search for a user's open
 * session and the per-session aggregates. The state changes (create, open, close) are methods of `Store.Db`.
 */
module Sessions {
  import opened Wrappers
  import opened Records
  import opened Progress

  /** Session `s` is an open session of user `uid`. */
  predicate OpenFor(s: Session, uid: UserId) {
    s.user == uid && s.state == Ouvert
  }

  /** `_get_open_for_user`: the open session of `uid` with the latest date, or none. Among sessions with the same
      date the one created last is chosen. */
  function LatestOpen(ss: seq<Session>, uid: UserId): (r: Option<SessionId>)
    ensures r.None? <==> forall i :: 0 <= i < |ss| ==> !OpenFor(ss[i], uid)
    ensures r.Some? ==> r.value < |ss| && OpenFor(ss[r.value], uid)
    ensures r.Some? ==> forall i :: 0 <= i < |ss| && OpenFor(ss[i], uid) ==> ss[i].date <= ss[r.value].date
  {
    if ss == [] then None
    else
      var prev := LatestOpen(ss[..|ss| - 1], uid);
      var s := ss[|ss| - 1];
      if OpenFor(s, uid) && (prev.None? || ss[prev.value].date <= s.date) then Some(|ss| - 1) else prev
  }

  /** Changes to other users' sessions, or to closed sessions of `uid` that stay closed, do not move the result. */
  lemma {:induction false} LatestOpenFrame(ss: seq<Session>, i: nat, s: Session, uid: UserId)
    requires i < |ss| && !OpenFor(ss[i], uid) && !OpenFor(s, uid)
    ensures LatestOpen(ss[i := s], uid) == LatestOpen(ss, uid)
  {
    if i < |ss| - 1 {
      assert ss[i := s][..|ss| - 1] == ss[..|ss| - 1][i := s];
      LatestOpenFrame(ss[..|ss| - 1], i, s, uid);
    } else {
      assert ss[i := s][..|ss| - 1] == ss[..|ss| - 1];
    }
  }

  /** `_ensure_open_for_user` when the user has no open session: the session it creates is the one found. */
  lemma LatestOpenAfterCreate(ss: seq<Session>, uid: UserId, s: Session)
    requires LatestOpen(ss, uid).None? && OpenFor(s, uid)
    ensures LatestOpen(ss + [s], uid) == Some(|ss|)
  {
    assert (ss + [s])[..|ss|] == ss;
  }

  // ---------------------------------------------------------------------------
  // `_compute_stats`
  // ---------------------------------------------------------------------------

  /** `total_livraisons`: the number of deliveries attached to session `s`. */
  function SessionCount(ls: seq<Livraison>, s: SessionId): (n: nat)
    ensures n <= |ls|
    ensures n == 0 <==> forall i :: 0 <= i < |ls| ==> ls[i].session != Some(s)
  {
    if ls == [] then 0
    else SessionCount(ls[..|ls| - 1], s) + (if ls[|ls| - 1].session == Some(s) then 1 else 0)
  }

  /** `montant_livre_total`. */
  function SessionAmount(ls: seq<Livraison>, s: SessionId): real {
    if ls == [] then 0.0
    else SessionAmount(ls[..|ls| - 1], s) + (if ls[|ls| - 1].session == Some(s) then ls[|ls| - 1].montant else 0.0)
  }

  /** `sacs_livres_total`. */
  function SessionBags(ls: seq<Livraison>, s: SessionId): real {
    if ls == [] then 0.0
    else SessionBags(ls[..|ls| - 1], s) + (if ls[|ls| - 1].session == Some(s) then Bags(ls[|ls| - 1]) else 0.0)
  }

  /** `sorties_sacs_total`. */
  function SortieBags(os: seq<Sortie>, s: SessionId): real {
    if os == [] then 0.0
    else SortieBags(os[..|os| - 1], s) + (if os[|os| - 1].session == s then os[|os| - 1].quantiteSacs else 0.0)
  }

  /** `sorties_kg_total`. */
  function SortieKg(os: seq<Sortie>, s: SessionId): real {
    if os == [] then 0.0
    else SortieKg(os[..|os| - 1], s) + (if os[|os| - 1].session == s then os[|os| - 1].quantiteKg else 0.0)
  }

  /** When every withdrawal of the session was weighed at the same bag weight, the session's kilograms are its bags
      times that weight. */
  lemma {:induction false} SortieKgFromBags(os: seq<Sortie>, s: SessionId, poidsSac: real)
    requires forall i :: 0 <= i < |os| && os[i].session == s ==> os[i].quantiteKg == Kilograms(os[i].quantiteSacs, poidsSac)
    ensures SortieKg(os, s) == SortieBags(os, s) * poidsSac
  {
    if os != [] {
      var init, o := os[..|os| - 1], os[|os| - 1];
      assert forall i :: 0 <= i < |init| ==> init[i] == os[i];
      SortieKgFromBags(init, s, poidsSac);
      var b := if o.session == s then o.quantiteSacs else 0.0;
      var k := if o.session == s then o.quantiteKg else 0.0;
      assert k == b * poidsSac;
      assert SortieKg(os, s) == SortieKg(init, s) + k;
      assert SortieBags(os, s) == SortieBags(init, s) + b;
      Distribute(SortieBags(init, s), b, poidsSac, SortieKg(init, s), k);
    } else {
      assert SortieKg(os, s) == 0.0 && SortieBags(os, s) == 0.0;
    }
  }

  /** When every delivery of the session was priced at the same positive bag price, the session's bags times that
      price is its delivered amount. */
  lemma {:induction false} SessionBagsTimesPrice(ls: seq<Livraison>, s: SessionId, prix: real)
    requires prix > 0.0
    requires forall i :: 0 <= i < |ls| && ls[i].session == Some(s) ==> ls[i].prixSac == prix
    ensures SessionBags(ls, s) * prix == SessionAmount(ls, s)
  {
    if ls != [] {
      var init, l := ls[..|ls| - 1], ls[|ls| - 1];
      assert forall i :: 0 <= i < |init| ==> init[i] == ls[i];
      SessionBagsTimesPrice(init, s, prix);
      var b := if l.session == Some(s) then Bags(l) else 0.0;
      var m := if l.session == Some(s) then l.montant else 0.0;
      assert b * prix == m;
      assert SessionBags(ls, s) == SessionBags(init, s) + b;
      assert SessionAmount(ls, s) == SessionAmount(init, s) + m;
      Distribute(SessionBags(init, s), b, prix, SessionAmount(init, s), m);
    } else {
      assert SessionBags(ls, s) == 0.0 && SessionAmount(ls, s) == 0.0;
    }
  }
}
