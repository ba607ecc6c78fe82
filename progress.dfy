/**
 * The values an order derives from its deliveries and the pure rules that move its delivery state
 * (models/pos_livraison.py:39-111, 288-296, 346-350).
 */
module Progress {
  import opened Wrappers
  import opened Records

  // ---------------------------------------------------------------------------
  // Sums over the deliveries of one order
  // ---------------------------------------------------------------------------

  /** What delivery `l` adds to the delivered amount of order `c`. */
  function Part(l: Livraison, c: CommandeId): real {
    if l.commande == Some(c) then l.montant else 0.0
  }

  /** `montant_livre`: the sum of the amounts of the deliveries that belong to order `c`. */
  function Delivered(ls: seq<Livraison>, c: CommandeId): real {
    if ls == [] then 0.0 else Delivered(ls[..|ls| - 1], c) + Part(ls[|ls| - 1], c)
  }

  /** With no negative delivery amounts, an order's delivered amount is not negative. */
  lemma {:induction false} DeliveredNonNegative(ls: seq<Livraison>, c: CommandeId)
    requires forall i :: 0 <= i < |ls| ==> ls[i].montant >= 0.0
    ensures Delivered(ls, c) >= 0.0
  {
    if ls != [] {
      DeliveredNonNegative(ls[..|ls| - 1], c);
    }
  }

  /** `montant_livre_cash` (t = Some(Cash)) and `montant_livre_bp` (t = Some(Bp)): the same sum restricted to one
      payment type. With t = None it is the share of the deliveries stored without a payment type, which neither
      field counts. */
  function DeliveredByType(ls: seq<Livraison>, c: CommandeId, t: Option<TypePaiement>): real {
    if ls == [] then 0.0
    else DeliveredByType(ls[..|ls| - 1], c, t) + (if ls[|ls| - 1].typePaiement == t then Part(ls[|ls| - 1], c) else 0.0)
  }

  /** A delivery is paid cash, BP, or has no payment type: the cash and BP sums plus the untyped share are the
      delivered amount, and when every delivery of the order has a type, cash plus BP is the delivered amount. */
  lemma {:induction false} CashPlusBp(ls: seq<Livraison>, c: CommandeId)
    ensures DeliveredByType(ls, c, Some(Cash)) + DeliveredByType(ls, c, Some(Bp)) + DeliveredByType(ls, c, None)
            == Delivered(ls, c)
    ensures (forall i :: 0 <= i < |ls| && ls[i].commande == Some(c) ==> ls[i].typePaiement.Some?) ==>
              DeliveredByType(ls, c, Some(Cash)) + DeliveredByType(ls, c, Some(Bp)) == Delivered(ls, c)
  {
    if ls != [] {
      var init := ls[..|ls| - 1];
      assert forall i :: 0 <= i < |init| ==> init[i] == ls[i];
      CashPlusBp(init, c);
      match ls[|ls| - 1].typePaiement
      case None =>
      case Some(Cash) =>
      case Some(Bp) =>
    }
  }

  /** Appending a delivery adds exactly its share to every order's delivered amount. */
  lemma DeliveredAppend(ls: seq<Livraison>, l: Livraison, c: CommandeId)
    ensures Delivered(ls + [l], c) == Delivered(ls, c) + Part(l, c)
  {
    assert (ls + [l])[..|ls|] == ls;
  }

  /** The deliveries that survive the deletion of the orders `gone` (`ondelete='cascade'`). */
  function WithoutOrders(ls: seq<Livraison>, gone: set<CommandeId>): (r: seq<Livraison>)
    ensures forall i :: 0 <= i < |r| ==> r[i] in ls && (r[i].commande.Some? ==> r[i].commande.value !in gone)
    ensures forall i :: 0 <= i < |ls| && (ls[i].commande.None? || ls[i].commande.value !in gone) ==> ls[i] in r
  {
    if ls == [] then []
    else
      var l := ls[|ls| - 1];
      WithoutOrders(ls[..|ls| - 1], gone) + (if l.commande.Some? && l.commande.value in gone then [] else [l])
  }

  /** Deleting other orders leaves the delivered amount of a surviving order unchanged. */
  lemma {:induction false} DeliveredWithoutOrders(ls: seq<Livraison>, gone: set<CommandeId>, c: CommandeId)
    requires c !in gone
    ensures Delivered(WithoutOrders(ls, gone), c) == Delivered(ls, c)
  {
    if ls != [] {
      var init, l := ls[..|ls| - 1], ls[|ls| - 1];
      var kept := WithoutOrders(init, gone);
      DeliveredWithoutOrders(init, gone, c);
      if l.commande.Some? && l.commande.value in gone {
        assert WithoutOrders(ls, gone) == kept;
        assert Part(l, c) == 0.0;
      } else {
        assert WithoutOrders(ls, gone) == kept + [l];
        DeliveredAppend(kept, l, c);
      }
    }
  }

  /** `montant_restant`. */
  function Remaining(total: real, livre: real): real {
    total - livre
  }

  // ---------------------------------------------------------------------------
  // Progress percentage
  // ---------------------------------------------------------------------------

  function Min(a: real, b: real): real {
    if a <= b then a else b
  }

  /** `progression`: 0 when the total is 0, otherwise the delivered share in percent, capped at 100. */
  function ProgressionOf(livre: real, total: real): (p: real)
    ensures total == 0.0 ==> p == 0.0
    ensures p <= 100.0
    ensures total > 0.0 && livre >= 0.0 ==> p >= 0.0
  {
    if total == 0.0 then 0.0 else Min(100.0, livre / total * 100.0)
  }

  /** The percentage of a progress share. */
  function Percent(s: Share): real {
    ProgressionOf(s.livre, s.total)
  }

  /** True when the progress `s` reaches `t` percent, decided without dividing: with a zero total the progress is
      0; otherwise `t` is at most the cap of 100 and `t` hundredths of the total are reached in the direction of
      the total's sign. */
  predicate Reaches(s: Share, t: int) {
    if s.total == 0.0 then t <= 0
    else t <= 100 && if s.total > 0.0 then s.livre * 100.0 >= t as real * s.total else s.livre * 100.0 <= t as real * s.total
  }

  /** `Reaches` is the comparison `progression >= t` of the source. */
  lemma ReachesPercent(s: Share, t: int)
    ensures Reaches(s, t) <==> Percent(s) >= t as real
  {
    if s.total != 0.0 {
      var q := s.livre / s.total;
      var tr := t as real;
      assert q * s.total == s.livre;
      assert q * 100.0 * s.total == s.livre * 100.0;
      if s.total > 0.0 {
        assert q * 100.0 >= tr <==> q * 100.0 * s.total >= tr * s.total;
      } else {
        assert q * 100.0 >= tr <==> q * 100.0 * s.total <= tr * s.total;
      }
    }
  }

  /** The progress of order `c` (record `o`) given the deliveries `ls`. */
  function OrderProgression(ls: seq<Livraison>, c: CommandeId, o: Commande): Share {
    Share(Delivered(ls, c), o.montantTotal)
  }

  // ---------------------------------------------------------------------------
  // Bags and weight
  // ---------------------------------------------------------------------------

  /** `sacs_farine` of a delivery: amount divided by the price of a bag, 0 when that price is not positive. */
  function SacsFarine(montant: real, prixSac: real): (r: real)
    ensures prixSac > 0.0 ==> r * prixSac == montant && (montant > 0.0 ==> r > 0.0)
    ensures prixSac <= 0.0 ==> r == 0.0
  {
    if prixSac > 0.0 then montant / prixSac else 0.0
  }

  /** `sacs_farine` of delivery `l`, computed from its amount and its bag price. */
  function Bags(l: Livraison): real {
    SacsFarine(l.montant, l.prixSac)
  }

  /** `quantite_kg` of a withdrawal and `poids_farine_kg` of an order: bags times the weight of a bag. */
  function Kilograms(sacs: real, poidsSac: real): real {
    sacs * poidsSac
  }

  /** `sacs_farine_total`: the bags of the deliveries of order `c`. */
  function SacsFarineTotal(ls: seq<Livraison>, c: CommandeId): real {
    if ls == [] then 0.0
    else SacsFarineTotal(ls[..|ls| - 1], c) + (if ls[|ls| - 1].commande == Some(c) then Bags(ls[|ls| - 1]) else 0.0)
  }

  /** When every delivery of `c` was priced at the same positive bag price, the order's bags times that price
      is its delivered amount. */
  lemma {:induction false} BagsTimesPrice(ls: seq<Livraison>, c: CommandeId, prix: real)
    requires prix > 0.0
    requires forall i :: 0 <= i < |ls| && ls[i].commande == Some(c) ==> ls[i].prixSac == prix
    ensures SacsFarineTotal(ls, c) * prix == Delivered(ls, c)
  {
    if ls != [] {
      var init, l := ls[..|ls| - 1], ls[|ls| - 1];
      assert forall i :: 0 <= i < |init| ==> init[i] == ls[i];
      BagsTimesPrice(init, c, prix);
      var s := if l.commande == Some(c) then Bags(l) else 0.0;
      BagTimesPrice(l, c, prix);
      assert SacsFarineTotal(ls, c) == SacsFarineTotal(init, c) + s;
      assert Delivered(ls, c) == Delivered(init, c) + Part(l, c);
      Distribute(SacsFarineTotal(init, c), s, prix, Delivered(init, c), Part(l, c));
    } else {
      assert SacsFarineTotal(ls, c) == 0.0 && Delivered(ls, c) == 0.0;
    }
  }

  lemma BagTimesPrice(l: Livraison, c: CommandeId, prix: real)
    requires prix > 0.0
    requires l.commande == Some(c) ==> l.prixSac == prix
    ensures (if l.commande == Some(c) then Bags(l) else 0.0) * prix == Part(l, c)
  {
  }

  lemma Distribute(a: real, b: real, p: real, x: real, y: real)
    requires a * p == x && b * p == y
    ensures (a + b) * p == x + y
  {
  }

  // ---------------------------------------------------------------------------
  // Writes on an order and the delivery-state rules
  // ---------------------------------------------------------------------------

  /** The values a `write` on orders may carry: delivery state, base state, completion date. */
  datatype CommandeVals = CommandeVals(etat: Option<Etat>, state: Option<BaseState>, dateComplete: Option<Option<Time>>)

  function SetEtat(e: Etat): CommandeVals { CommandeVals(Some(e), None, None) }
  function SetState(s: BaseState): CommandeVals { CommandeVals(None, Some(s), None) }
  function SetDate(d: Option<Time>): CommandeVals { CommandeVals(None, None, Some(d)) }

  /** True when a base state is set and is neither `livre` nor `annule`. */
  predicate Promotable(s: BaseState) {
    s != NoState && s != Livre && s != Annule
  }

  /** The record after the overridden `write`: the values are stored; then, when the delivery state was written and
      moved to `livree`, a promotable base state becomes `livre` and an unset completion date becomes `now`. */
  function Written(c: Commande, vals: CommandeVals, now: Time): (r: Commande)
    ensures r.etat == vals.etat.GetOr(c.etat)
    ensures r.montantTotal == c.montantTotal && r.priority == c.priority && r.lastThreshold == c.lastThreshold
    ensures r.typePaiement == c.typePaiement && r.createDate == c.createDate
    ensures var stored := vals.state.GetOr(c.state);
            var date := vals.dateComplete.GetOr(c.dateComplete);
            if vals.etat == Some(Livree) && c.etat != Livree && Promotable(stored)
            then r.state == Livre && r.dateComplete == (if date.Some? then date else Some(now))
            else r.state == stored && r.dateComplete == date
  {
    var s := c.(etat := vals.etat.GetOr(c.etat), state := vals.state.GetOr(c.state),
                dateComplete := vals.dateComplete.GetOr(c.dateComplete));
    if vals.etat.Some? && s.etat != c.etat && s.etat == Livree && Promotable(s.state)
    then s.(state := Livre, dateComplete := if s.dateComplete.Some? then s.dateComplete else Some(now))
    else s
  }

  /** `_update_state_from_progress` on one record, given its delivered amount: the field assignments of the source,
      each a write. A cancelled order, or one with nothing delivered, is untouched; `0 < livre < total - 0.01` gives
      `livree_partielle`; `|livre - total| <= 0.01` gives `livree`, base state `livre` unless unset, and a completion
      date stamped only if unset. */
  function FromProgress(c: Commande, livre: real, now: Time): (r: Commande)
    ensures r.montantTotal == c.montantTotal && r.lastThreshold == c.lastThreshold
    ensures c.etat == Annulee || livre == 0.0 ==> r == c
    ensures c.etat != Annulee && 0.0 < livre < c.montantTotal - Tol ==> r == c.(etat := LivreePartielle)
    ensures c.etat != Annulee && livre != 0.0 && !(0.0 < livre < c.montantTotal - Tol) && Abs(livre - c.montantTotal) <= Tol ==>
              r == c.(etat := Livree,
                      state := if c.state == NoState then NoState else Livre,
                      dateComplete := if c.dateComplete.None? then Some(now) else c.dateComplete)
    ensures c.etat != Annulee && livre != 0.0 && !(0.0 < livre < c.montantTotal - Tol) && Abs(livre - c.montantTotal) > Tol ==>
              r == c
  {
    if c.etat == Annulee || livre == 0.0 then c
    else if 0.0 < livre < c.montantTotal - Tol then Written(c, SetEtat(LivreePartielle), now)
    else if Abs(livre - c.montantTotal) <= Tol then
      var c1 := Written(c, SetEtat(Livree), now);
      var c2 := if c1.state != NoState && c1.state != Livre then Written(c1, SetState(Livre), now) else c1;
      if c2.dateComplete.None? then Written(c2, SetDate(Some(now)), now) else c2
    else c
  }

  /** Applying the rule again, at any later time, changes nothing: the completion date is stamped once. */
  lemma FromProgressIdempotent(c: Commande, livre: real, now: Time, later: Time)
    ensures FromProgress(FromProgress(c, livre, now), livre, later) == FromProgress(c, livre, now)
  {
  }

  /** The rule neither reads nor writes the milestone watermark. */
  lemma FromProgressWatermark(c: Commande, livre: real, now: Time, w: int)
    ensures FromProgress(c.(lastThreshold := w), livre, now) == FromProgress(c, livre, now).(lastThreshold := w)
  {
  }

  /** `action_complete_livraison` on one record once the amount check has passed: the write of `livree` and `now`,
      then the write of base state `livre` on records whose base state is set and neither `livre` nor `annule`. */
  function Completed(c: Commande, now: Time): (r: Commande)
    ensures r == c.(etat := Livree, dateComplete := Some(now), state := if Promotable(c.state) then Livre else c.state)
  {
    var c1 := Written(c, CommandeVals(Some(Livree), None, Some(Some(now))), now);
    if Promotable(c1.state) then Written(c1, SetState(Livre), now) else c1
  }

  /** True when `action_complete_livraison` accepts the record: delivered + 0.01 reaches the total. */
  predicate Completable(livre: real, total: real) {
    !(livre + Tol < total)
  }

  // ---------------------------------------------------------------------------
  // Progress milestones (`_notify_progress_thresholds`)
  // ---------------------------------------------------------------------------

  const Thresholds: seq<int> := [25, 50, 75, 100]

  function Reached(t: int, prog: Share, last: int): seq<int> {
    if Reaches(prog, t) && last < t then [t] else []
  }

  /** The milestones, ascending, that the progress has reached and the watermark `last` has not. */
  function Crossed(prog: Share, last: int): (r: seq<int>)
    ensures forall i :: 0 <= i < |r| ==> r[i] in Thresholds && last < r[i] && Reaches(prog, r[i])
    ensures forall t :: t in Thresholds && last < t && Reaches(prog, t) ==> t in r
    ensures forall i, j :: 0 <= i < j < |r| ==> r[i] < r[j]
  {
    Reached(25, prog, last) + Reached(50, prog, last) + Reached(75, prog, last) + Reached(100, prog, last)
  }

  /** The watermark after the milestones are notified: the highest crossed milestone, or `last` if none. */
  function NewWatermark(prog: Share, last: int): (w: int)
    ensures w >= last
    ensures w == last || (w in Thresholds && Reaches(prog, w))
    ensures Crossed(prog, w) == []
  {
    var r := Crossed(prog, last);
    if r == [] then last else r[|r| - 1]
  }

  /** The loop of the source over `ts`: emit `t` and raise the watermark to `t` whenever the progress reaches
      `t` and the current watermark is below it. Returns the final watermark and the emitted milestones. */
  function Scan(prog: Share, last: int, ts: seq<int>): (int, seq<int>) {
    if ts == [] then (last, [])
    else
      var prev := Scan(prog, last, ts[..|ts| - 1]);
      var t := ts[|ts| - 1];
      if Reaches(prog, t) && prev.0 < t then (t, prev.1 + [t]) else prev
  }

  /** The source's loop over [25, 50, 75, 100] emits exactly the crossed milestones and ends at the new watermark. */
  lemma ScanThresholds(prog: Share, last: int)
    ensures Scan(prog, last, Thresholds) == (NewWatermark(prog, last), Crossed(prog, last))
  {
    var t1, t2, t3 := Thresholds[..1], Thresholds[..2], Thresholds[..3];
    assert t1 == [25] && t2 == [25, 50] && t3 == [25, 50, 75];
    assert t1[..0] == [] && t2[..1] == t1 && t3[..2] == t2 && Thresholds[..3] == t3;
    assert Scan(prog, last, t1[..0]) == (last, []);
    var s1 := Scan(prog, last, t1);
    assert s1.1 == Reached(25, prog, last);
    assert s1.0 == if Reaches(prog, 25) && last < 25 then 25 else last;
    var s2 := Scan(prog, last, t2);
    assert s2.1 == Reached(25, prog, last) + Reached(50, prog, last);
    assert s2.0 == if Reaches(prog, 50) && s1.0 < 50 then 50 else s1.0;
    var s3 := Scan(prog, last, t3);
    assert s3.1 == Reached(25, prog, last) + Reached(50, prog, last) + Reached(75, prog, last);
    assert s3.0 == if Reaches(prog, 75) && s2.0 < 75 then 75 else s2.0;
    var s4 := Scan(prog, last, Thresholds);
    assert s4.1 == Crossed(prog, last);
    assert s4.0 == if Reaches(prog, 100) && s3.0 < 100 then 100 else s3.0;
  }

  /** The watermark values that the notification can produce from the default 0. */
  predicate IsWatermark(w: int) {
    w == 0 || w == 25 || w == 50 || w == 75 || w == 100
  }

  /** The milestones at or below watermark `w`, ascending. */
  function UpTo(w: int): seq<int> {
    (if 25 <= w then [25] else []) + (if 50 <= w then [50] else []) + (if 75 <= w then [75] else []) + (if 100 <= w then [100] else [])
  }

  /** Notifying from watermark `w` appends to the milestones at or below `w` exactly the ones that bring it to the
      new watermark: milestones are emitted in order, none twice, none skipped. */
  lemma MilestoneLog(prog: Share, w: int)
    requires IsWatermark(w)
    ensures IsWatermark(NewWatermark(prog, w))
    ensures UpTo(w) + Crossed(prog, w) == UpTo(NewWatermark(prog, w))
  {
    var h := Level(prog);
    CrossedBetween(prog, w);
    BetweenLast(w, h);
    assert NewWatermark(prog, w) == if h > w then h else w;
    LevelLog(w, h);
  }

  /** The crossed milestones are those above the watermark up to the level reached. */
  lemma CrossedBetween(prog: Share, w: int)
    ensures Crossed(prog, w) == Between(w, Level(prog))
  {
    ReachesDown(prog);
  }

  /** A progress that reaches a milestone reaches the lower ones. */
  lemma ReachesDown(s: Share)
    ensures Reaches(s, 100) ==> Reaches(s, 75)
    ensures Reaches(s, 75) ==> Reaches(s, 50)
    ensures Reaches(s, 50) ==> Reaches(s, 25)
  {
  }

  /** The highest milestone the progress reaches, 0 if none. */
  function Level(s: Share): int {
    if Reaches(s, 100) then 100 else if Reaches(s, 75) then 75 else if Reaches(s, 50) then 50
    else if Reaches(s, 25) then 25 else 0
  }

  /** The milestones above `w` and at most `h`, ascending. */
  function Between(w: int, h: int): seq<int> {
    (if w < 25 <= h then [25] else []) + (if w < 50 <= h then [50] else []) + (if w < 75 <= h then [75] else [])
    + (if w < 100 <= h then [100] else [])
  }

  lemma BetweenLast(w: int, h: int)
    requires IsWatermark(w) && IsWatermark(h)
    ensures Between(w, h) == [] <==> h <= w
    ensures Between(w, h) != [] ==> Between(w, h)[|Between(w, h)| - 1] == h
  {
  }

  lemma LevelLog(w: int, h: int)
    requires IsWatermark(w) && IsWatermark(h)
    ensures UpTo(w) + Between(w, h) == UpTo(if h > w then h else w)
  {
  }

  /** A milestone log of this shape holds at most four distinct milestones, ascending. */
  lemma UpToShape(w: int)
    ensures |UpTo(w)| <= 4
    ensures forall i, j :: 0 <= i < j < |UpTo(w)| ==> UpTo(w)[i] < UpTo(w)[j]
  {
  }
}
