# DesiVolt complaint desk — a Dafny model of the ticket lifecycle

DesiVolt's front end lets customers lodge complaints about household appliances and track them.
An admin assigns each ticket to an electrician, soft-deletes tickets and watches the counts.
Electricians mark their own tickets In Progress or Resolved.

The front end is one React file, `index.js`. This project models the logic behind its panels.

- The session and routing: a first-match lookup in a fixed allow-list of staff accounts.
  The persisted session decides which panel is rendered.
- The complaint collection: an in-memory sequence of documents. Each document holds an opaque
  store key and a ticket record.
- The handlers that change it: submit a complaint, assign, soft delete, and the electrician's
  status buttons.
- The queries every view recomputes from the whole snapshot: the tracking scan, the
  electrician's queue, the dashboard counts and the performance figures.

Modules:

- `options.dfy`: `Options`, the optional value used for nullable fields.
- `tickets.dfy`: `Tickets`, which holds several things.
  - The ticket record and the form.
  - The `MUZ-NNNN` identifier and its inverse.
  - ASCII upper-casing.
  - The field patches each workflow writes.
  - The invariant every stored ticket keeps.
- `session.dfy`: `Session`, the allow-list, login lookup, roster and panel routing.
- `queries.dfy`: `Queries`, covering key lookup, tracking, queue, counts and performance.
- `desk.dfy`: `Desk`, the class `App`. It holds the session, the navigation panel, the store,
  the form and the admin's delete dialog, with one method per handler. It also holds lemmas
  about how the handlers interact and a walk-through of one complaint's whole life.

What the environment provides becomes a parameter:

- The configured store (`db`) is the constant `App.online`.
- `Math.floor(Math.random() * 9000)` is the parameter `draw`.
- `new Date().toISOString()` is the parameter `now`.
- The store's answer to the create call is the parameter `accepted`.
- The store's own document ids are natural numbers taken from a counter.
- A patch on a key that is not in the store fails and changes nothing, as `updateDoc` does.

## Behaviour worth knowing

- Deleted and Resolved are not terminal. The trash button is rendered on every row, Resolved
  and Deleted ones included (index.js:627-632). A soft delete keeps the assignee
  (index.js:537-540), so a Deleted ticket stays on its electrician's dashboard. The two status
  buttons are disabled only when the status is Resolved (index.js:755, 763). So the electrician
  can move a Deleted ticket back to In Progress or Resolved. `ResolvedAndDeletedAreNotTerminal`
  states this.
- The Assign control is hidden on Resolved and Deleted rows (index.js:611). The handler itself
  does not look at the prior status (index.js:508-521), and `App.Assign` models the handler.
- Cancelling the delete dialog closes it and clears the reason. It leaves the chosen row set
  (index.js:678).
- While a session exists, the navigation buttons change the panel but not what `renderPanel`
  returns (index.js:107-112). A signed-in user who presses "Track Complaint" still sees their
  dashboard. The hero banner and the highlighted button do follow the panel
  (index.js:159-163, 181).
- `renderPanel` trusts the persisted `loggedInUser` record as it stands (index.js:107-111). A
  record that matches no allow-list account still opens the dashboard of its role.
  `PersistedRecordIsTrusted` states this.
- The admin's electrician selection is one value for the whole table (index.js:483). Every
  row's dropdown writes it (index.js:614) and every row's Assign button reads it
  (index.js:622). Nothing resets it after an assignment. So once elec1 has been picked on one
  row, the Assign button of another row assigns that row to elec1 too, while its own dropdown
  still shows "Assign To...". `SelectionCarriesOver` states this.

## Model

| member | source | states |
|---|---|---|
| `Tickets.WithField` | index.js:274-277 | the edited input takes the new value and every other input keeps its own |
| `Tickets.TicketId` | index.js:287 | the id is 8 characters: `MUZ-` and four decimal digits, the first not zero |
| `Tickets.TicketNumber` | index.js:287 | any number read back from an id lies in the generator's range 1000..9999 |
| `Tickets.TicketIdRoundTrip` | index.js:287 | reading the id generated for any n in 1000..9999 gives back n |
| `Tickets.TicketNumberRoundTrip` | index.js:287 | every id the reader accepts is the one generated for its number, so the well-formed ids are exactly the generator's outputs |
| `Tickets.TicketIdInjective` | index.js:287 | two draws give the same id only when they drew the same number |
| `Tickets.DecimalDigits` | index.js:287 | the four digits written for n in 1000..9999 recompose to n |
| `Tickets.UpperIdempotent` | index.js:404 | upper-casing an already upper-cased tracking number changes nothing |
| `Tickets.TicketIdIsUpper` | index.js:287 | generated ids are already upper case |
| `Tickets.NewTicketValid` | index.js:287-295 | a new ticket is Pending and unassigned, carries the form unchanged and the shown id, and satisfies the ticket invariant |
| `Tickets.AssignToValid` | index.js:518-521 | the assign patch keeps the ticket invariant whatever the prior status |
| `Tickets.SoftDeleteValid` | index.js:537-540 | the delete patch with a non-empty reason keeps the invariant, Resolved tickets included |
| `Tickets.SetStatusValid` | index.js:719-722 | both electrician buttons keep the invariant on an assigned ticket |
| `Session.FindAccount` | index.js:90 | returns the FIRST account whose username and password both match exactly; returns none only if no account matches |
| `Session.FindById` | index.js:517 | returns the first roster entry with the selected id; returns none only if no entry has it |
| `Session.Electricians` | index.js:109 | exactly the accounts whose role is electrician, never more than the allow-list holds |
| `Session.SessionOverridesPanel` | index.js:106-112 | with a session, the render ignores the navigation panel: admin dashboard for an admin, the electrician's own dashboard otherwise |
| `Session.PersistedRecordIsTrusted` | index.js:107-109 | a persisted admin-role record that is no allow-list account still renders the admin dashboard |
| `Session.RosterIsElec1Elec2` | index.js:55-59 | the electrician roster is elec1 then elec2 |
| `Session.AllowListFirstMatchIsOnly` | index.js:55-59 | allow-list usernames are distinct, so any matching account is the one login finds |
| `Queries.IndexOfKey` | index.js:516-518 | finds the document with the given store key; returns none only if no document has it |
| `Queries.LastMatch` | index.js:357-361 | the LAST document whose upper-cased id equals the upper-cased input; returns none only if no document matches |
| `Queries.Track` | index.js:347-372 | no store or an empty number gives no result and the "enter a number" message; otherwise the last match is shown, or none with "not found" |
| `Queries.TrackCaseInsensitive` | index.js:358 | inputs equal up to upper-casing (`muz-1234`, `MUZ-1234`) resolve to the same record |
| `Queries.TrackFindsAppended` | index.js:379-383 | a document appended to the snapshot is what tracking its own id returns |
| `Queries.TrackFindsOnlyMatch` | index.js:379-383 | when exactly one document matches, tracking returns it whatever the order |
| `Queries.Queue` | index.js:706 | a document is in the electrician's queue if and only if it is in the snapshot and assigned to that username |
| `Queries.QueueKeepsOrder` | index.js:706 | the queue keeps snapshot order: on a store with increasing keys its keys increase too |
| `Queries.HeadKeyBelowTail` | index.js:706 | on a store with increasing keys the first document's key is below every later one |
| `Queries.ConsKeepsIncreasing` | index.js:706 | prefixing a document whose key is below every key of an increasing queue keeps it increasing |
| `Queries.CountStatus` | index.js:489-491 | the number of documents with a status is at most the snapshot size |
| `Queries.StatusPartition` | index.js:488-491 | the four status counts add up to the total |
| `Queries.CountStatusUpdate` | index.js:489-491 | replacing one document moves one unit out of its old status count and into its new one |
| `Queries.DashboardTotals` | index.js:488-491 | pending + in progress + resolved + deleted = total, so the three cards never exceed the total |
| `Queries.PerfOf` | index.js:554-556 | assigned is the queue length, and solved + pending + deleted-assigned = assigned, so solved + pending <= assigned |
| `Queries.Performance` | index.js:551-560 | one entry per roster username, each holding that electrician's figures |
| `Queries.QueueHasNoPending` | index.js:556 | on a store keeping the ticket invariant, no queued ticket is Pending |
| `Queries.PerfPendingIsInProgress` | index.js:556 | the "pending" column counts only In Progress tickets |
| `Desk.OnCardIffQueued` | index.js:706 | a ticket has a card on the electrician's dashboard if and only if it is in their queue |
| `Desk.AssignFromPendingShiftsTotals` | index.js:518-521 | assigning a Pending ticket moves one from the Pending card to In Progress; the total and Resolved card stay the same |
| `Desk.AssignedIsQueued` | index.js:518-521 | after assignment the ticket is in the chosen electrician's queue |
| `Desk.ResolvedAndDeletedAreNotTerminal` | index.js:627-632 | a ticket can be deleted from any status; a deleted ticket keeps its assignee and card, its buttons stay enabled, and either button takes it out of Deleted |
| `Desk.IndexOfKeyAfterPatch` | index.js:537 | patching one document in place under its own key leaves every key found where it was, and a missing key missing |
| `Desk.App.constructor` | index.js:49-52 | a page load starts on the home panel with an empty form, no selection and no dialog; it takes the persisted session as it stands and the stored collection |
| `Desk.App.Login` | index.js:89-98 | succeeds only if some account matches; then the first match is persisted and its role picks the admin or electrician panel; on no match nothing changes |
| `Desk.App.Logout` | index.js:100-103 | clears the session and sets the panel to home, so `renderPanel` returns the home view |
| `Desk.App.Navigate` | index.js:159-163 | sets the panel; with a session what `renderPanel` returns does not change |
| `Desk.App.EditField` | index.js:274-277 | the form becomes the old form with one input replaced |
| `Desk.App.Submit` | index.js:279-306 | an incomplete form, no store or a rejected write changes nothing and keeps the form; otherwise it appends one Pending, unassigned ticket under a fresh key, returns the stored id as the receipt, and clears the form |
| `Desk.App.SelectElectrician` | index.js:613-614 | any row's dropdown sets the one page-wide selection |
| `Desk.App.Assign` | index.js:508-527 | reads the page-wide selection and leaves it as it is. No store: nothing; empty selection: refused; unknown selection or key: fails. Otherwise exactly assignee := selected username and status := In Progress on that one ticket, whatever its prior status; size unchanged |
| `Desk.App.OpenDelete` | index.js:627-632 | any row, whatever its status, can be chosen for deletion |
| `Desk.App.EditReason` | index.js:669-671 | the dialog's reason becomes the typed text |
| `Desk.App.CancelDelete` | index.js:678 | closes the dialog and clears the reason; the store and the chosen row are untouched |
| `Desk.App.ConfirmDelete` | index.js:529-549 | no store, no chosen row or an empty reason: refused and no change. Otherwise status := Deleted and the reason recorded, assignee untouched, the record kept, the dialog reset |
| `Desk.App.MarkStatus` | index.js:715-727 | only the signed-in electrician's own tickets have buttons; both are disabled exactly on Resolved; otherwise status := the button's, resolvedAt set if and only if it is Resolved, nothing else changes |
| `Desk.WalkThroughAccounts` | index.js:55-59 | the admin and elec1 credentials find accounts 0 and 1; the dropdown id elec1 selects elec1 |
| `Desk.WalkThroughIdentifier` | index.js:287 | drawing 1234 gives MUZ-1234, and `muz-1234` upper-cases to it |
| `Desk.CustomerFillsForm` | index.js:274-277 | filling the inputs one by one yields the complete form with the landmark left empty |
| `Desk.CustomerSubmits` | index.js:286-301 | that submission stores one Pending, unassigned ticket MUZ-1234 and clears the form |
| `Desk.AdminAssigns` | index.js:508-521 | the admin signs in, picks elec1 and assigns it: In Progress, assignedTo elec1 |
| `Desk.SelectionCarriesOver` | index.js:614-622 | after elec1 is picked once, assigning two rows in turn assigns both to elec1; both keep their positions |
| `Desk.ElectricianResolves` | index.js:715-723 | elec1 marks it Resolved; resolvedAt is set, and both buttons are then disabled |

Every mutating method of `App` also keeps `App.Valid()`, which says the following.

- Store keys increase and are below the next fresh key.
- Every ticket keeps the ticket invariant:
  - its id is well formed;
  - a Pending ticket is untouched;
  - an In Progress or Resolved ticket has an assignee;
  - a Resolved ticket has a resolution time;
  - a Deleted ticket has a non-empty reason.

The constructor takes the stored collection with these facts as its precondition. This assumes
that every stored document was written by the handlers modelled here.

`Submit`, `Assign`, `ConfirmDelete` and `MarkStatus` are the methods that write the store. Each
of them also ensures `Retains(old(docs), docs)`:

- no record is removed;
- keys, form fields, ids and creation times never change;
- no ticket goes back to Pending.

The other methods leave `docs` unchanged, because their `modifies` frames do not name it.

`Desk.EndToEnd` chains the walk-through steps. The customer then tracks `muz-1234` and sees the
ticket Resolved. elec1's figures are 1 assigned, 1 solved, 0 pending.

## Left out

- Rendering, JSX, styling, modals and alerts. Messages and alerts are outcome tags.
- The "Login" modal's open flag (index.js:94) is not modelled.
- Firebase set-up and anonymous or custom-token sign-in (index.js:31-38, 61-87). The
  `auth.currentUser` guards on the subscriptions (index.js:494, 703) are not modelled.
- Subscriptions (`onSnapshot`) are not modelled. Every query reads the current store, taken as
  the latest snapshot.
- Snapshot order is modelled as insertion order. Firestore orders by document id, which this
  model does not reproduce, so `TrackFindsAppended` relies on that choice. `TrackFindsOnlyMatch`
  does not.
- Store failures other than a missing document are not modelled: a rejected `updateDoc`, a
  failing `getDocs` and its "Error tracking complaint" message. A rejected create is modelled,
  through `accepted`.
- `localStorage` is the `session` field. JSON encoding is not modelled.
- `Math.random()` and the clock are the parameters `draw` and `now`.
- `toUpperCase` is modelled on ASCII letters only.
- Re-rendering is not modelled. React re-renders on a state change, and `localStorage` is not
  state. The model takes the view to be `renderPanel` of the current session and panel. By a
  reading of the code (not executed), Logout pressed while the panel is already home changes
  no state, so the dashboard may stay on screen until the next render.
- Concurrent writers, last-write-wins races and stale snapshots are not modelled.
- Component-local state lives as long as its component. The form, the delete dialog and the
  admin's selection are modelled as living as long as the page.
- Desk.App.Assign, Desk.App.OpenDelete and Desk.App.ConfirmDelete are not gated on an admin
  session. They are the AdminPanel's handlers, which are reachable only from the admin view.
- Desk.App.Assign does not model the row-level hiding of the Assign control on Resolved and
  Deleted rows (index.js:611). It models the handler, which does not check.
- Desk.App.Submit checks only that required inputs are non-empty. It does not check that the
  appliance is one of the price-list entries the dropdown offers.
- The static Home, About and Pricing panels and the price list (index.js:41-45, 434-477) are not
  modelled.
