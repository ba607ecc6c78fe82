# pos_livraison in Dafny

A model of the delivery module of a point-of-sale system, written for the Odoo framework. An order
(`pos.caisse.commande`) is delivered in parts. Each part is a `pos.livraison.livraison` record made by a courier
during a courier session (`pos.livraison.session`). Stock withdrawals (`pos.livraison.sortie.stock`) go on the same
sessions. A JSON controller lets the mobile client:

- open and close sessions;
- record deliveries and withdrawals;
- read the delivery queue.

The model covers two parts.

**The order model** (models/pos_livraison.py):
- what an order derives from its deliveries:
  - the delivered amount, the remaining amount and the cash/BP split;
  - the progress percentage, capped at 100;
  - bags and kilograms;
- the delivery-state rules `en_queue` → `en_cours` → `livree_partielle` → `livree`. The rules driven by the delivered
  amount leave `annulee` alone, but `action_complete_livraison` does not;
- the 25/50/75/100 % milestone notifications with their watermark `last_progress_threshold`;
- the overridden `write` with its state events;
- the delivery `create` and `write`;
- `action_start_livraison`, `action_complete_livraison`, `action_quick_full_deliver` and `unlink`;
- the session search, creation, opening, closing and statistics.

**The controller** (controllers/main.py):
- the ordered checks of `create_livraison` and the state nudge that follows it;
- the amount/bag conversion of `create_sortie_stock`;
- the note it writes on its shadow delivery;
- the parser `_extract_motif_from_notes`, which reads that note back;
- the screen mapping of the role payload;
- the queue order and positions of `get_queue`;
- the guards of `session_close`;
- the state counts of `get_stats`.

## Structure

- **Values and pure rules.** Records are datatypes (`Records`). The derived values and state rules are functions
  (`Progress`, `Events`, `Sessions`, `Text`, `Requests`).
- **The loops.** The recordset loops (`for rec in self`) are methods with loop invariants in `Orders`. Each one is
  proved equal to a record-by-record function of the table before the call.
- **The store.** `Store.Db` is a class whose fields are the tables and the bus log:
  - `commandes`, a map by id;
  - `livraisons`, `sessions` and `sorties`, sequences in creation order;
  - `events`, every bus message sent, in order.
- **Its methods.** Each method of the source that changes records is a method of `Db` or of `Controller`. Each
  states its whole new state and keeps the invariant `Db.Valid()`, which says:
  - references resolve and ids are fresh;
  - each order's `progress` events in the log are exactly the milestones up to its watermark. These are ascending
    and never repeated, so there are at most four per order (`Progress.UpToShape`).
- **Amounts within total.** `Db.WithinTotals()` says no order is delivered beyond its total plus 0.01. The delivery
  `create`, `unlink`, `action_quick_full_deliver` and `create_livraison` preserve it.
- **Errors.** Every `UserError` and every error answer of the controller is an `Err` result. All checks run before
  the first write, so an error changes nothing. This is the same as the transaction rollback.

How the model represents some of the source:

- **Writes.** Every field assignment on an order (`rec.etat_livraison = …`) goes through the overridden `write` of
  models/pos_livraison.py:149-168. The model composes such writes. As a result, `_update_state_from_progress` sends
  its state events through `write`, exactly as the source does.
- **Progress in the events.** The bus messages carry the progress as the pair (delivered amount, total). The
  percentage `progression` is `Progress.Percent` of that pair. The milestone comparison `progression >= t` is
  decided without dividing, by `Progress.Reaches`, and `Progress.ReachesPercent` proves the two equal.
- **The bag count.** The bag count `sacs_farine` of a delivery is not stored. It is `Progress.Bags`, recomputed
  from the amount and the bag price snapshot. The source recomputes the stored field whenever either of these
  changes (models/pos_livraison.py:288-296).
- **Ids.** The database numbers records from 1. Order and delivery ids are database ids, and `Store.Db` starts both
  counters at 1. A session is identified by its position in the session table, and its database id is that position
  plus 1 (`Records.SessionDbId`). So an id of 0 from a client names nothing, as in the source.
- **Environment values.** These are parameters of the methods:
  - the clock;
  - the `ir.sequence` reference;
  - the configured `prix_sac` and `poids_sac`;
  - the name of a newly created session;
  - the name of the session's user, which `create_sortie_stock` writes as the courier of its shadow delivery (controllers/main.py:488);
  - the user's group memberships;
  - the `:.2f` / `:.0f` number formatting.

Where the code and the module's design description disagree, the model follows the code:

- Sessions:
  - there is no noon-to-noon session window;
  - closed sessions are never reopened by `_ensure_open_for_user`;
  - `action_open_session` may make a second session of the same user open.
- There is no 1.25 target for VC orders: `montant_cible` is not defined in this module, so `create_livraison`
  checks against `montant_total`.
- `_update_state_from_progress` sets the base state to `livre` even when it is `annule`
  (models/pos_livraison.py:81). The other two places that set it skip `annule` (lines 110 and 160).
- A `create` on a cancelled order is accepted, and the follow-up leaves the state `annulee`.
- A cancelled order can become `livree`. `action_complete_livraison` has no guard on the delivery state
  (models/pos_livraison.py:102-111). The nudge of `create_livraison` calls it whenever nothing remains
  (controllers/main.py:381-382). So a cancelled order filled through the API becomes `livree` (`Progress.Completed`,
  `Requests.Nudged`).
- A delivery `write` follows up the order of each delivery as it is after the write. A delivery moved to another
  order therefore leaves the order it left without a follow-up. That order keeps its delivery state and watermark,
  and the new order is not checked against its total (`Store.Db.WriteLivraisons`).
- A delivery `write` that changes the amount is not checked against the order's total, so it can break
  `WithinTotals`.
- `create` does not check whether the given session is closed. Only `write` refuses a closed session.
- The `forbidden` answer of `session_close` cannot happen: the session is looked up among the caller's own open
  sessions (`Requests.CloseNeverForbidden`).
- The start nudge of `create_livraison` only fires when the order's delivered amount is at most 0
  (`Requests.StartNudgeOnlyWithoutDeliveries`).
- Completion in `action_quick_full_deliver`:
  - the completion branch runs only when the follow-up of `create` left the order short of `livree`, which happens
    only for a zero total;
  - either way, it ends `livree` (`Store.QuickDeliverEnds`).
- The motif round trip needs one more condition than a clean motif and label-free user notes:
  - the motif must not end with `" -"`, because that dash and the following separator form an earlier `' - '`;
  - `Text.MotifEndingWithDashIsCut` shows the motif `"a -"` read back as `"a"`.
- `montant_livre in (None, '', False)` is true for the number 0 as well, since `0 == False` in Python. The test
  is therefore exactly falsiness, so an amount of 0 is reported as missing (`Requests.BlankIsFalsy`).
- With `prix_sac <= 0`:
  - a withdrawal given by bags gives its shadow delivery an amount `<= 0` and a bag count of 0;
  - a withdrawal given by amount counts 0 bags (`Requests.ShadowBagsAgree`).

## Model

| member | source | states |
|---|---|---|
| Progress.DeliveredNonNegative | models/pos_livraison.py:39-42 | with no negative delivery amount, `montant_livre` is not negative |
| Progress.DeliveredAppend | models/pos_livraison.py:39-42 | a new delivery adds exactly its amount to its own order's `montant_livre` and nothing to the others |
| Progress.CashPlusBp | models/pos_livraison.py:60-64 | `montant_livre_cash + montant_livre_bp` plus the share of the deliveries stored with no payment type is `montant_livre`; cash plus BP alone is `montant_livre` when every delivery of the order has a payment type |
| Progress.WithoutOrders | models/pos_livraison.py:235 | cascade deletion keeps exactly the deliveries whose order is not deleted |
| Progress.DeliveredWithoutOrders | models/pos_livraison.py:122-126 | deleting other orders leaves a surviving order's `montant_livre` unchanged |
| Progress.ProgressionOf | models/pos_livraison.py:66-69 | `progression` is 0 for a zero total, never above 100, and not negative for a positive total and delivered amount |
| Progress.ReachesPercent | models/pos_livraison.py:66-69 | the division-free milestone test holds exactly when `progression >= t` |
| Progress.SacsFarine | models/pos_livraison.py:293-296 | with a positive bag price, bags × price is the amount and a positive amount gives positive bags; otherwise 0 bags |
| Progress.BagsTimesPrice | models/pos_livraison.py:49-52 | when the order's deliveries share one positive bag price, `sacs_farine_total` × price is `montant_livre` |
| Progress.Written | models/pos_livraison.py:149-161 | the written values are stored; a move to `livree` promotes a set base state other than `livre`/`annule` to `livre` and stamps an unset completion date; nothing else changes |
| Progress.FromProgress | models/pos_livraison.py:71-84 | `annulee` or a delivered amount of 0: unchanged; `0 < livre < total - 0.01`: `livree_partielle`; `|livre - total| <= 0.01`: `livree`, base state `livre` unless unset, date stamped only if unset; else unchanged |
| Progress.FromProgressIdempotent | models/pos_livraison.py:71-84 | a second run with the same delivered amount, at any later time, changes nothing (the completion date is stamped once) |
| Progress.FromProgressWatermark | models/pos_livraison.py:71-84 | the state rule neither reads nor writes the milestone watermark |
| Progress.Completed | models/pos_livraison.py:102-111 | completion sets `livree` and the date `now`, and base state `livre` when it is set and neither `livre` nor `annule` |
| Progress.Crossed | models/pos_livraison.py:86-97 | the milestones notified are exactly the thresholds reached and above the watermark, in strictly ascending order |
| Progress.NewWatermark | models/pos_livraison.py:86-97 | the watermark never decreases, lands on a reached threshold or stays, and leaves nothing more to notify |
| Progress.ScanThresholds | models/pos_livraison.py:87-97 | the source's loop over [25, 50, 75, 100] emits exactly `Crossed` and ends at `NewWatermark` |
| Progress.MilestoneLog | models/pos_livraison.py:86-97 | from a reachable watermark, the milestones already sent plus the new ones are exactly those up to the new watermark: none repeated, none skipped |
| Progress.UpToShape | models/pos_livraison.py:36 | an order's milestone log holds at most four milestones, strictly ascending |
| Events.StateEvents | models/pos_livraison.py:149-168 | a write sends only state events, each for a record of the write whose delivery state changed |
| Events.StateEventsNone | models/pos_livraison.py:153-156 | a write that changes no delivery state sends no state event |
| Events.MilestoneEvents | models/pos_livraison.py:89-96 | one `progress` event per milestone, in order, with the order and its progress |
| Events.Milestones | models/pos_livraison.py:86-97 | the threshold notification of a recordset sends only `progress` events about its records |
| Events.ProgressEventsOfMilestoneRun | models/pos_livraison.py:86-97 | in the events of a duplicate-free recordset, each order finds exactly its crossed milestones and other orders none |
| Events.RefreshEvents | models/pos_livraison.py:283-285 | the follow-up of one order sends events about that order only |
| Events.RefreshIdempotent | models/pos_livraison.py:283-285 | a second follow-up with the same deliveries changes nothing and sends nothing |
| Events.ProgressEventsOfRefresh | models/pos_livraison.py:283-285 | the follow-up gives its order exactly the milestones it crossed and other orders none |
| Events.ProgressEventsOfRefreshLog | models/pos_livraison.py:305-308 | in the follow-up events of distinct orders, each finds exactly its crossed milestones |
| Events.Dedup | models/pos_livraison.py:305-308 | the orders of the written deliveries, each once, and no other |
| Events.RefreshedAllAt | models/pos_livraison.py:305-308 | a delivery write refreshes each order of its deliveries as if once, however often it repeats, and no other order |
| Events.FollowUpLogDedup | models/pos_livraison.py:305-308 | a repeated order sends nothing more: the events are those of each distinct order once, from the orders as they were |
| Sessions.LatestOpen | models/pos_livraison.py:388-391 | none iff the user has no open session; otherwise an open session of the user with the latest date |
| Sessions.LatestOpenFrame | models/pos_livraison.py:388-391 | replacing a session that is not an open session of the user by another that is not leaves the user's open session unchanged |
| Sessions.LatestOpenAfterCreate | models/pos_livraison.py:396-400 | the session created for a user without an open one is the one then found |
| Sessions.SessionCount | models/pos_livraison.py:406 | `total_livraisons` is at most the number of deliveries, and 0 iff none is on the session |
| Sessions.SortieKgFromBags | models/pos_livraison.py:346-350 | with one bag weight, `sorties_kg_total` is `sorties_sacs_total` × that weight |
| Sessions.SessionBagsTimesPrice | models/pos_livraison.py:402-408 | with one positive bag price, `sacs_livres_total` × price is `montant_livre_total` |
| Orders.Filtered | models/pos_livraison.py:100 | `filtered` keeps exactly the records satisfying the test and keeps them duplicate-free |
| Orders.WrittenAll | models/pos_livraison.py:149-152 | a write on orders keeps the set of orders, their totals and their watermarks |
| Orders.WrittenAllAt | models/pos_livraison.py:149-152 | on a duplicate-free recordset the write applies once to each record and to no other |
| Orders.StateNotifications | models/pos_livraison.py:151-167 | the notification loop of `write` sends exactly `StateEvents` |
| Orders.UpdateRecord | models/pos_livraison.py:71-84 | the loop body of `_update_state_from_progress` yields `FromProgress` and the state event of the change |
| Orders.ProgressedAllAt | models/pos_livraison.py:71-84 | each record of a duplicate-free recordset gets the rule once, from its own delivered amount; no other changes |
| Orders.UpdateStates | models/pos_livraison.py:71-84 | `_update_state_from_progress` on a recordset yields the record-by-record rule and its state events |
| Orders.NotifyRecord | models/pos_livraison.py:86-97 | the threshold loop on one record raises it to `NewWatermark` and sends the events of exactly `Crossed` |
| Orders.WatermarkedAllAt | models/pos_livraison.py:86-97 | each record of a duplicate-free recordset has its watermark raised once; no other changes |
| Orders.NotifyThresholds | models/pos_livraison.py:86-97 | `_notify_progress_thresholds` on a recordset raises each watermark and sends `Milestones` |
| Orders.FollowUpOne | models/pos_livraison.py:283-285 | the two methods on one order make up one follow-up, with its events |
| Orders.FollowUpOrder | models/pos_livraison.py:283-285 | the follow-up of one order: the order refreshed and exactly its follow-up events |
| Orders.FollowUps | models/pos_livraison.py:305-308 | the delivery write's loop refreshes its orders in turn and sends their follow-up events |
| Orders.StartedAt | models/pos_livraison.py:99-100 | `action_start_livraison` moves exactly the `en_queue` records to `en_cours` and changes nothing else |
| Orders.CompletedAllAt | models/pos_livraison.py:102-111 | each record of the recordset ends completed from its own value; no other order changes |
| Orders.CompletedWrites | models/pos_livraison.py:107-111 | the two writes of `action_complete_livraison` complete each record and nothing else |
| Orders.CompleteEvents | models/pos_livraison.py:110-111 | the second write of `action_complete_livraison` sends no state event |
| Orders.AnyIncomplete | models/pos_livraison.py:104-106 | the check finds a record iff some record has `livre + 0.01 < total` |
| Orders.AnyDelivered | models/pos_livraison.py:123-125 | the check finds a record iff some record is `livree` |
| Store.LogsAfterWrite | models/pos_livraison.py:149-168 | a write on orders keeps every order's milestone log equal to its watermark's milestones |
| Store.LogsAfterFollowUp | models/pos_livraison.py:86-97 | a follow-up keeps every order's milestone log equal to its new watermark's milestones |
| Store.TablesAfterUnlink | models/pos_livraison.py:122-126 | deleting orders with their deliveries keeps ids increasing and references resolving |
| Store.RecordName | models/pos_livraison.py:252-253 | a given name other than 'Nouveau' is kept; otherwise the sequence's next reference, or 'Nouveau' |
| Store.CreateError | models/pos_livraison.py:266-271 | `create` is refused with `AboveTotal` iff the order exists and `montant_livre + montant > montant_total + 0.01`; it is accepted iff a given order exists and the amount fits, and a given session exists |
| Store.NewRecord | models/pos_livraison.py:250-265 | the stored delivery has the new id, the session, the order, amount and payment type given, the configured bag price, and the session's user as courier unless one is given |
| Store.TotalsAfterCreate | models/pos_livraison.py:270-272 | a delivery that passed the amount check keeps every order within its total plus 0.01 |
| Store.RefreshedFull | models/pos_livraison.py:71-84 | delivering the whole total makes an open order `livree` with a date, except a zero total, which stays as it was |
| Store.QuickDeliverEnds | models/pos_livraison.py:224-226 | after the remaining amount is delivered, the order ends `livree` with a completion date |
| Store.Patch | models/pos_livraison.py:288-304 | each written field of a delivery (name, order, session, date, amount, payment type, courier, courier user, notes, withdrawal flag) takes its new value, a falsy value clearing an optional field (order, session, payment type, courier, courier user, notes), and every other field stays; the id stays; a new amount replaces the bag price snapshot |
| Store.AttachedSession | models/pos_livraison.py:300 | the session that is checked against `ferme` is the written `session_id` when it is truthy, and there is none when `session_id` is not written or falsy |
| Store.Patched | models/pos_livraison.py:298-304 | the write changes exactly the deliveries of the recordset |
| Store.OrdersOf | models/pos_livraison.py:305-306 | the orders followed up are exactly the orders of the written deliveries that have one |
| Store.TablesAfterPatch | models/pos_livraison.py:298-304 | a write onto an existing session keeps the tables consistent |
| Store.Db.CreateCommande | models/pos_livraison.py:6-36 | a new order has a fresh id and this module's defaults: `en_queue`, no completion date, watermark 0 |
| Store.Db.WriteCommandes | models/pos_livraison.py:149-168 | the overridden `write` stores `WrittenAll` and appends exactly its state events |
| Store.Db.FollowUp | models/pos_livraison.py:305-308 | the follow-up of the written deliveries' orders, with its events appended |
| Store.Db.ActionStartLivraison | models/pos_livraison.py:99-100 | only `en_queue` records of the recordset move to `en_cours`, each with its state event |
| Store.Db.ActionCompleteLivraison | models/pos_livraison.py:102-111 | refused with nothing changed iff some record has `livre + 0.01 < total`; otherwise every record is completed, with its state events |
| Store.Db.Unlink | models/pos_livraison.py:122-126 | refused with nothing changed iff some record is `livree`; otherwise the orders and their deliveries are deleted |
| Store.Db.EnsureOpenForUser | models/pos_livraison.py:393-400 | afterwards the user has an open session, the one returned; an existing one is returned with no change, otherwise one session is appended |
| Store.Db.OpenSession | models/pos_livraison.py:412-416 | the session is `ouvert` with no closing date, so its user has an open session |
| Store.Db.CloseSession | models/pos_livraison.py:418-422 | the session is `ferme` with closing date `now` |
| Store.Db.NotifyNewLivraison | models/pos_livraison.py:273-285 | the `new_livraison` message with the new progress and old state, then the order's follow-up |
| Store.Db.SessionFor | models/pos_livraison.py:254-258 | the given session, or else the user's open one, created if needed |
| Store.Db.CreateLivraison | models/pos_livraison.py:250-286 | refused with nothing changed exactly as `CreateError` says; otherwise the record is appended, the message is sent, the order is refreshed and totals stay within bounds |
| Store.Db.QuickFullDeliver | models/pos_livraison.py:209-227 | refused with nothing changed for `livree`/`annulee` or nothing remaining; otherwise exactly one delivery appended, with the next id, the remaining amount and the order's payment type, on the user's open session (created only if there was none); the order map changes only at this order, which becomes `QuickDelivered` (fully delivered, `livree` with a date); the log gains the `new_livraison` message, the follow-up events and the completion's state event |
| Store.Db.DeliverAndComplete | models/pos_livraison.py:218-226 | the writes of the quick delivery: the record, sessions and id of `QuickFullDeliver`, the order map changed only at this order, which becomes `QuickDelivered`, and the log with the `new_livraison` message, the follow-up events and the completion's state event |
| Store.Db.FinishQuick | models/pos_livraison.py:224-226 | after the whole total is delivered, the completion step leaves the order `QuickDelivered` (`livree` with a date), adds only its state event, and changes no delivery or session |
| Store.Db.DeliverRemaining | models/pos_livraison.py:218-223 | the delivery of the remaining amount cannot be refused: the record of `QuickVals` is appended on the user's open session, the order, now fully delivered, is refreshed and no other order changes, and the log gains the `new_livraison` message and the follow-up events |
| Store.Db.CreateRemaining | models/pos_livraison.py:218-222 | the `create` of the quick delivery for an amount that fits: the record of `QuickVals` with the next id on the user's open session, the order refreshed from its deliveries, the message and follow-up events appended |
| Store.Db.CompleteIfDelivered | models/pos_livraison.py:224-226 | the completion runs, and passes its check, exactly when the order is within 0.01 of its total and not `livree`; it then changes only this order, to `Completed`, and logs its state event; otherwise nothing changes |
| Store.Db.CompleteOne | models/pos_livraison.py:102-111 | completing one record whose check passes: `Completed`, with its state event |
| Store.Db.StartOne | models/pos_livraison.py:99-100 | starting one `en_queue` record: `en_cours`, with its state event |
| Store.Db.WriteLivraisons | models/pos_livraison.py:298-309 | refused with nothing changed for a missing or `ferme` session when a truthy `session_id` is written, a missing delivery or a missing order; a falsy `session_id` is written with no check; otherwise the deliveries are patched and the orders they have after the write are followed up |
| Store.Db.PatchAndFollowUp | models/pos_livraison.py:304-308 | `super().write` then the loop: the table is `Patched`, and the orders of the written deliveries get `RefreshedAll` and its events |
| Store.Db.PatchOnly | models/pos_livraison.py:304 | `super().write` alone: the table is `Patched`, stays consistent, and every order its written deliveries point to exists |
| Store.OrdersKnown | models/pos_livraison.py:305-306 | in consistent tables, every order the loop follows up exists |
| Store.Db.CreateSortie | models/pos_livraison.py:337-350 | the withdrawal is appended on the given or the user's open session, with `quantite_kg` = bags × weight |
| Text.FindFrom | controllers/main.py:16 | the first occurrence from a position on, or none iff there is none |
| Text.Find | controllers/main.py:16-18 | `find` gives the first occurrence, or none (-1) iff the key does not occur |
| Text.LStrip | controllers/main.py:19 | `lstrip` removes exactly the leading `str.isspace` characters |
| Text.RStrip | controllers/main.py:21 | `rstrip` removes exactly the trailing `str.isspace` characters |
| Text.Strip | controllers/main.py:21 | `strip` gives a slice of the input with no `str.isspace` character at either end; for `int()`/`float()`, none of the whitespace they skip |
| Text.StripTrimmed | controllers/main.py:21 | `strip` keeps a string that has no surrounding whitespace |
| Text.BeforeSep | controllers/main.py:21 | `split(' - ')[0]` is the prefix before the first separator and contains none |
| Text.MotifAfter | controllers/main.py:19-22 | a motif read after the label is non-empty, has no surrounding whitespace and no separator |
| Text.ExtractMotif | controllers/main.py:8-24 | none for empty notes or notes without the label; a motif found is clean and comes from notes containing the label |
| Text.NotesPrefix | controllers/main.py:496 | the prefix is empty iff the user's notes are absent or empty |
| Text.ShadowNote | controllers/main.py:496 | the note starts with the notes prefix, then the label, and is long enough for the motif and the separator |
| Text.KeyFirstInNote | controllers/main.py:16 | with label-free user notes, the label first occurs where the withdrawal text starts |
| Text.SepFirstAfterMotif | controllers/main.py:21 | the separator first occurs right after a clean motif not ending with `" -"` |
| Text.MotifRoundTrip | controllers/main.py:8-24 | the motif written by the note of line 496 is read back exactly, for a clean motif not ending with `" -"` and label-free user notes |
| Text.MotifEndingWithDashIsCut | controllers/main.py:8-24 | the clean motif `"a -"` written at line 496 reads back as `"a"` |
| Text.ParseInt | controllers/main.py:357 | `int()` accepts only an optional sign and one or more decimal digits, within the whitespace it skips |
| Text.ParseFloat | controllers/main.py:352 | `float()` refuses a text that, stripped and without its sign, is empty |
| Text.ParseFloatOfInt | controllers/main.py:352 | a text `int()` accepts, `float()` accepts with the same value |
| Text.Trunc | controllers/main.py:345 | `int()` of a number truncates toward zero |
| Requests.BlankIsFalsy | controllers/main.py:349-350 | `v in (None, '', False)` holds exactly for falsy values, the number 0 included |
| Requests.TypePaiementOf | controllers/main.py:339 | an absent `type_paiement` and 'cash' store cash, 'bp' stores BP, any other falsy value stores no payment type, and a truthy value outside the selection is refused |
| Requests.ValidateLivraison | controllers/main.py:332-364 | each answer in the order of the checks, once the earlier checks pass: `no_open_session` iff there is no open session; an unconvertible client session id, or one differing from the open session's database id; `commande_id requis`; `montant_livre requis`, `invalide`, `doit être > 0`; an unconvertible order id; `Commande non trouvée` for an id ≤ 0 or not in the table; `Montant dépasse`; a truthy payment type outside the selection; otherwise accepted with exactly the order, amount, open session, payment type (none for a falsy one) and courier user of the request |
| Requests.OrderZeroNotFound | controllers/main.py:357-359 | an order parameter that converts to 0 is answered 'Commande non trouvée', whatever orders exist |
| Requests.SessionZeroMismatch | controllers/main.py:345-346 | a client session id that converts to 0 is answered `session_mismatch` |
| Requests.ValidatedCreates | controllers/main.py:360-378 | a request the controller accepts is never refused by `create` |
| Requests.Nudged | controllers/main.py:379-384 | the nudge keeps the total and watermark and leaves nothing `en_queue`; when nothing remains a non-`livree` order is `Completed` and a `livree` one is unchanged; otherwise an `en_queue` order moves to `en_cours` with nothing else changed and any other order is unchanged |
| Requests.StartNudgeOnlyWithoutDeliveries | controllers/main.py:383-384 | an order still `en_queue` after `create` has a delivered amount ≤ 0 |
| Requests.BagsAmount | controllers/main.py:475 | positive bags at a positive price give a positive amount, and at a non-positive price an amount ≤ 0 |
| Requests.Convert | controllers/main.py:456-475 | a given amount is accepted iff numeric and > 0, and is kept; otherwise a bag count is accepted iff numeric and > 0, and is kept |
| Requests.Converted | controllers/main.py:458-473 | each branch of the conversion succeeds iff its number parsed and is > 0 |
| Requests.ConvertInverse | controllers/main.py:465-475 | with a positive bag price, bags × price is the amount in both directions, and both are positive |
| Requests.ShadowBagsAgree | controllers/main.py:465-492 | the shadow delivery's bags equal the withdrawal's, except a bag count given at a non-positive price: amount ≤ 0 and 0 bags |
| Requests.ValidateSortie | controllers/main.py:443-475 | `no_open_session` iff there is none; then a missing motif; then the conversion's error; then a type outside the selection; otherwise accepted with the conversion's result |
| Requests.ScreensFor | controllers/main.py:53-74 | each screen is shown iff the user is admin (system group or id 1) or in that area's user or manager group |
| Requests.ScreensMonotone | controllers/main.py:65-74 | more groups never hide a screen; an admin sees all four |
| Requests.PrecedesOrder | controllers/main.py:392-395 | priority descending then creation ascending (then id) is a strict total order |
| Requests.Insert | controllers/main.py:392-395 | inserting an order keeps the list ordered, adds exactly that order |
| Requests.Sorted | controllers/main.py:392-395 | the sorted list is ordered and a permutation of its input |
| Requests.QueuedBelow | controllers/main.py:392-394 | exactly the `en_queue` orders, each once |
| Requests.Queue | controllers/main.py:392-395 | the queue is in priority-then-creation order |
| Requests.QueueContents | controllers/main.py:392-395 | the queue holds each `en_queue` order exactly once and nothing else |
| Requests.OrderedUnique | controllers/main.py:392-395 | two ordered lists of the same orders are equal, so the queue is determined |
| Requests.GetQueue | controllers/main.py:396-405 | the positions are exactly 1..n in queue order |
| Requests.CloseDecision | controllers/main.py:151-158 | `no_open_session` iff there is no open session; a close is allowed only for the owner or a system user |
| Requests.CloseNeverForbidden | controllers/main.py:153-158 | on the caller's own open session `forbidden` never happens; the close succeeds iff there is an open session |
| Requests.InState | controllers/main.py:412 | exactly the orders in the given delivery state |
| Requests.CountsTotal | controllers/main.py:411-424 | `total` is the number of orders minus the cancelled ones |
| Requests.DeliveriesToday | controllers/main.py:416-421 | exactly the deliveries dated from today on, of the open session if there is one |
| Requests.TodayWithinSession | controllers/main.py:415-421 | with an open session, today's deliveries number at most the session's |
| Controller.NudgeAfterCreate | controllers/main.py:379-384 | the order becomes `Nudged`, with the state event of the change |
| Controller.CreateLivraison | controllers/main.py:326-388 | refused with nothing changed iff a check fails, the error given by the checks; otherwise one delivery with the next id on the open session, the sessions unchanged, the order refreshed then nudged, and the log gains the `new_livraison` message, the follow-up events and the nudge's state event |
| Controller.StoreLivraison | controllers/main.py:365-385 | the writes of an accepted request: the record of `create` with the next id, the sessions unchanged, then the nudge, with the `new_livraison` message, the follow-up events and the nudge's state event logged in that order |
| Controller.ShadowRecord | controllers/main.py:489-498 | the shadow delivery has no order, the converted amount, cash payment, the name of the session's user as courier, the caller as courier user, the withdrawal flag and the note |
| Controller.StoreShadow | controllers/main.py:489-498 | a delivery without order is appended and nothing else changes |
| Controller.CreateSortieStock | controllers/main.py:436-505 | refused with nothing changed iff a check fails; otherwise one withdrawal and one shadow delivery with the note of line 496, on the open session |
| Controller.StoreSortieStock | controllers/main.py:476-498 | the withdrawal, then the delivery that mirrors it |
| Controller.SessionClose | controllers/main.py:151-160 | answers as `CloseDecision`; on success the open session is closed at `now`, otherwise nothing changes |

## Left out

- Bus transport (`_bus_notify`, models/pos_livraison.py:170-207): publishing a message is appending it to `Db.events`, and it never fails.
- ORM and HTTP plumbing: `search`, `browse`, `exists`, routes, JSON/HTTP wrapping, logging, `cr.rollback`. The tables are in-memory values. The rollback equals "nothing changed", because all checks run before the first write.
- Read-only endpoints: `get_commandes`, `list_livraisons`, `get_commande_detail`, `session_status`, `_session_to_payload` and the role routes. They only build search domains and payloads. Their motif field is `Text.ExtractMotif`, and their session lookup is `Sessions.LatestOpen`.
- `session_open`: it is `Store.Db.EnsureOpenForUser` answered as a payload, so it has no member of its own.
- `action_confirmer`: it depends on the parent model's `super()`, which is not part of this model.
- UI-only code: `action_open_quick_livraison` and `_onchange_commande_id`.
- `LivraisonQueue`: it has fields only.
- The parent model's own order creation: the parent model is not part of this model. `Store.Db.CreateCommande` only sets this module's defaults.
- Floating point: amounts are exact reals compared with an exact 0.01 tolerance.
- Store.Db.QuickFullDeliver: the remaining amount is not rounded with `round(…, 2)` before the delivery is created.
  An order's `type_paiement` is always cash or BP here. The parent model may hold other values: models/pos_livraison.py:317-318
  guards for them, and line 222 passes the parent's value to the delivery's cash/BP selection, which then raises. That
  refusal is not modelled.
- Controller.CreateSortieStock: the `:.2f` and `:.0f` formatting of the note is passed in as the functions `show2` and `show0`. The `try` around the shadow delivery (controllers/main.py:486-501) is not modelled, because that creation cannot fail in the model: no order and an existing session.
- Text.ParseFloat: exponents, `inf`, `nan` and digit-group underscores are not accepted. Its contract states only that a text that is empty once stripped and unsigned is refused. The accepted form (digits with at most one dot) is given by its body and by `Text.ParseFloatOfInt`.
- Text.ParseInt: digit-group underscores and non-ASCII decimal digits are not accepted; Python accepts both.
- Requests.ValidateLivraison: non-string `livreur` or `notes` values are not modelled. An explicit `null` `type_paiement` and an absent one both read as `JNull`, that is cash. In the source an explicit `null` is falsy and is stored as no payment type; the model stores cash. Whether a given `livreur_id` names an existing user is not checked.
- Requests.ValidateSortie: a `motif` is given as a string or nothing. Other JSON types are not modelled. A `type` that
  is absent and one that is an explicit `null` both read as `JNull`, that is `interne`. In the source an explicit
  `null` bypasses the `'interne'` default, the required selection refuses `None` (models/pos_livraison.py:331-333),
  and the request is rolled back. The model accepts it.
- Store.Db.CreateLivraison: the `ir.sequence` reference, the configured bag price, the clock and the name of a newly created session are parameters. The session user default (models/pos_livraison.py:259-265) takes the session's user: the session always exists here, so the `except` branch is not modelled.
- Progress.Percent: the published percentage is computed with exact division and not with float arithmetic.
- Requests.Precedes, Sessions.LatestOpen: ties the database leaves unordered are broken in a fixed way. The queue is
  ordered by `priority desc, create_date asc` (controllers/main.py:395), and the model breaks ties by ascending id.
  The open session is the search with `order='date desc', limit=1` (models/pos_livraison.py:390), and among
  sessions with the same date the model takes the last created.
