/** The application state behind the panels: the persisted session and the
    navigation state, the complaint collection, the customer's form and the
    admin's delete dialog. Each handler of the front end is a method that
    changes only the fields it names. */
module Desk {
  import opened Options
  import opened Tickets
  import opened Session
  import opened Queries

  /** The electricians the admin's dropdown offers. */
  const Roster: seq<Account> := Electricians(AllowList)

  datatype SubmitOutcome = Submitted(receipt: string) | Incomplete | Unavailable | WriteFailed

  datatype AdminOutcome = Done | NoStore | NoSelection | Refused | Failed

  /** The two buttons on an electrician's ticket card. */
  datatype StatusButton = MarkInProgress | MarkResolved

  datatype ElectricianOutcome = Updated | NotShown | Disabled | Offline

  function ButtonStatus(b: StatusButton): Status {
    match b
    case MarkInProgress => InProgress
    case MarkResolved => Resolved
  }

  /** The store only ever grows; each position keeps its key, its form
      fields, its identifier and its creation time; and no ticket returns to
      Pending once it has left it. */
  ghost predicate Retains(before: seq<Doc>, after: seq<Doc>) {
    |before| <= |after| &&
    forall i :: 0 <= i < |before| ==>
      && after[i].key == before[i].key
      && after[i].ticket.form == before[i].ticket.form
      && after[i].ticket.ticketId == before[i].ticket.ticketId
      && after[i].ticket.createdAt == before[i].ticket.createdAt
      && (before[i].ticket.status != Pending ==> after[i].ticket.status != Pending)
  }

  /** The ticket with this key is on a card of the signed-in electrician's
      dashboard: it exists and is assigned to them. */
  predicate OnCard(docs: seq<Doc>, session: Option<Account>, key: nat) {
    && session.Some? && session.value.role == Electrician
    && IndexOfKey(docs, key).Some?
    && docs[IndexOfKey(docs, key).value].ticket.assignedTo == Some(session.value.username)
  }

  /** A card is shown exactly for the documents of the electrician's queue. */
  lemma OnCardIffQueued(docs: seq<Doc>, a: Account, key: nat)
    requires KeysIncreasing(docs) && a.role == Electrician
    ensures OnCard(docs, Some(a), key) <==> exists d :: d in Queue(docs, a.username) && d.key == key
  {
    if d :| d in Queue(docs, a.username) && d.key == key {
      var j :| 0 <= j < |docs| && docs[j] == d;
      var i := IndexOfKey(docs, key);
      assert i.Some? && i.value == j;
    }
    if OnCard(docs, Some(a), key) {
      assert docs[IndexOfKey(docs, key).value] in Queue(docs, a.username);
    }
  }

  /** Assigning a Pending ticket moves it from the Pending card to the In
      Progress card; the total and the Resolved card stay as they were. */
  lemma AssignFromPendingShiftsTotals(docs: seq<Doc>, i: nat, username: string)
    requires i < |docs| && docs[i].ticket.status == Pending
    ensures var after := DashboardTotals(docs[i := Doc(docs[i].key, AssignTo(docs[i].ticket, username))]);
      var before := DashboardTotals(docs);
      && after.total == before.total
      && after.pending + 1 == before.pending
      && after.inProgress == before.inProgress + 1
      && after.resolved == before.resolved
  {
    var d := Doc(docs[i].key, AssignTo(docs[i].ticket, username));
    CountStatusUpdate(docs, i, d, Pending);
    CountStatusUpdate(docs, i, d, InProgress);
    CountStatusUpdate(docs, i, d, Resolved);
  }

  /** After an assignment the ticket is on the chosen electrician's queue. */
  lemma AssignedIsQueued(docs: seq<Doc>, i: nat, username: string)
    requires i < |docs|
    ensures var after := docs[i := Doc(docs[i].key, AssignTo(docs[i].ticket, username))];
      after[i] in Queue(after, username)
  {
  }

  /** Neither Resolved nor Deleted is terminal. The trash button is offered
      on a Resolved ticket and the soft delete applies to it; a Deleted
      ticket keeps its assignee, so it stays on that electrician's cards
      with both buttons enabled, and either button takes it out of Deleted. */
  lemma ResolvedAndDeletedAreNotTerminal(docs: seq<Doc>, a: Account, key: nat, reason: string, now: string)
    requires a.role == Electrician && reason != ""
    requires IndexOfKey(docs, key).Some?
    requires docs[IndexOfKey(docs, key).value].ticket.assignedTo == Some(a.username)
    ensures var i := IndexOfKey(docs, key).value;
      var deleted := docs[i := Doc(key, SoftDelete(docs[i].ticket, reason))];
      && deleted[i].ticket.status == Deleted
      && OnCard(deleted, Some(a), key)
      && deleted[i].ticket.status != Resolved
      && SetStatus(deleted[i].ticket, ButtonStatus(MarkInProgress), now).status == InProgress
      && SetStatus(deleted[i].ticket, ButtonStatus(MarkResolved), now).status == Resolved
  {
    var i := IndexOfKey(docs, key).value;
    IndexOfKeyAfterPatch(docs, i, SoftDelete(docs[i].ticket, reason), key);
  }

  /** Patching one document in place, under its own key, moves no key: every
      key is found where it was found before, and a missing key stays
      missing. */
  lemma {:induction false} IndexOfKeyAfterPatch(docs: seq<Doc>, i: nat, t: Ticket, key: nat)
    requires i < |docs|
    ensures IndexOfKey(docs[i := Doc(docs[i].key, t)], key) == IndexOfKey(docs, key)
  {
    var patched := docs[i := Doc(docs[i].key, t)];
    if i == 0 {
      assert patched[1..] == docs[1..];
    } else {
      assert patched[0] == docs[0];
      assert patched[1..] == docs[1..][i - 1 := Doc(docs[1..][i - 1].key, t)];
      IndexOfKeyAfterPatch(docs[1..], i - 1, t, key);
    }
  }

  class App {
    /** Whether the store was configured (`db` is not null). */
    const online: bool
    /** The persisted `loggedInUser` record. */
    var session: Option<Account>
    var panel: Panel
    /** The complaint collection, in snapshot order. */
    var docs: seq<Doc>
    /** The store's next fresh document key. */
    var nextKey: nat
    /** The customer's complaint form. */
    var form: Form
    /** The admin's electrician selection: one value for the whole table,
        written by whichever row's dropdown last changed ("" for the
        "Assign To..." entry) and read by every row's Assign button. */
    var selected: string
    /** The admin's delete dialog: the chosen row, the typed reason, and
        whether the dialog is open. */
    var deleteTarget: Option<nat>
    var deleteReason: string
    var deleteOpen: bool

    ghost predicate Valid()
      reads this
    {
      && KeysIncreasing(docs)
      && (forall i :: 0 <= i < |docs| ==> docs[i].key < nextKey)
      && (forall i :: 0 <= i < |docs| ==> TicketInvariant(docs[i].ticket))
    }

    /** A page load: the home panel, an empty form, no selection, no dialog,
        whatever record the browser had persisted as the session (trusted as
        it is, allow-list account or not), and the collection as the store
        holds it. The store's documents are taken to have been written by
        the handlers below, so they keep the invariant. */
    constructor (online: bool, persisted: Option<Account>, stored: seq<Doc>, next: nat)
      requires KeysIncreasing(stored)
      requires forall i :: 0 <= i < |stored| ==> stored[i].key < next
      requires forall i :: 0 <= i < |stored| ==> TicketInvariant(stored[i].ticket)
      ensures Valid()
      ensures this.online == online && session == persisted && panel == HomePanel
      ensures docs == stored && nextKey == next && form == EmptyForm && selected == ""
      ensures deleteTarget == None && deleteReason == "" && !deleteOpen
    {
      this.online := online;
      session := persisted;
      panel := HomePanel;
      docs := stored;
      nextKey := next;
      form := EmptyForm;
      selected := "";
      deleteTarget := None;
      deleteReason := "";
      deleteOpen := false;
    }

    // -------------------------------------------------------------------
    // Session
    // -------------------------------------------------------------------

    /** Succeeds exactly when some allow-list account matches; then the first
        matching account is persisted and its role picks the panel. On no
        match neither the session nor the panel changes. */
    method Login(username: string, password: string) returns (ok: bool)
      requires Valid()
      modifies this`session, this`panel
      ensures Valid()
      ensures ok <==> FindAccount(AllowList, username, password).Some?
      ensures ok ==>
        var a := AllowList[FindAccount(AllowList, username, password).value];
        session == Some(a) && panel == PanelAfterLogin(a.role)
        && Render(session, panel) == Render(Some(a), HomePanel)
      ensures !ok ==> session == old(session) && panel == old(panel)
    {
      var found := FindAccount(AllowList, username, password);
      if found.Some? {
        var a := AllowList[found.value];
        session := Some(a);
        panel := PanelAfterLogin(a.role);
        ok := true;
      } else {
        ok := false;
      }
    }

    /** Clears the persisted session and returns to the home panel. */
    method Logout()
      requires Valid()
      modifies this`session, this`panel
      ensures Valid()
      ensures session == None && panel == HomePanel && Render(session, panel) == HomeView
    {
      session := None;
      panel := HomePanel;
    }

    /** A navigation button. */
    method Navigate(p: Panel)
      requires Valid()
      modifies this`panel
      ensures Valid() && panel == p
      ensures session.Some? ==> Render(session, panel) == Render(session, old(panel))
    {
      panel := p;
    }

    // -------------------------------------------------------------------
    // Customer: complaint form
    // -------------------------------------------------------------------

    /** Typing into one input of the form. */
    method EditField(field: Field, value: string)
      requires Valid()
      modifies this`form
      ensures Valid() && form == WithField(old(form), field, value)
    {
      form := WithField(form, field, value);
    }

    /** Submits the form. `draw` is `Math.floor(Math.random() * 9000)`, so the
        number is 1000 + draw; `now` is the creation timestamp; `accepted` is
        the store's answer to the write. An incomplete form never reaches the
        handler; without a store, or when the write is rejected, nothing is
        written and the form keeps its contents. Otherwise one Pending,
        unassigned ticket is appended, the receipt shown is its identifier,
        and the form is cleared. */
    method Submit(draw: nat, now: string, accepted: bool) returns (outcome: SubmitOutcome)
      requires Valid() && draw < 9000
      modifies this`docs, this`nextKey, this`form
      ensures Valid() && Retains(old(docs), docs)
      ensures !Complete(old(form)) ==> outcome == Incomplete
      ensures Complete(old(form)) && !online ==> outcome == Unavailable
      ensures Complete(old(form)) && online && !accepted ==> outcome == WriteFailed
      ensures !outcome.Submitted? ==> docs == old(docs) && nextKey == old(nextKey) && form == old(form)
      ensures Complete(old(form)) && online && accepted ==>
        && outcome == Submitted(TicketId(1000 + draw))
        && docs == old(docs) + [Doc(old(nextKey), NewTicket(old(form), 1000 + draw, now))]
        && docs[|docs| - 1].ticket.ticketId == outcome.receipt
        && nextKey == old(nextKey) + 1 && form == EmptyForm
    {
      if !Complete(form) {
        return Incomplete;
      }
      if !online {
        return Unavailable;
      }
      if !accepted {
        return WriteFailed;
      }
      var n := 1000 + draw;
      var t := NewTicket(form, n, now);
      NewTicketValid(form, n, now);
      docs := docs + [Doc(nextKey, t)];
      nextKey := nextKey + 1;
      form := EmptyForm;
      outcome := Submitted(TicketId(n));
    }

    // -------------------------------------------------------------------
    // Admin: assign and soft delete
    // -------------------------------------------------------------------

    /** Changing any row's dropdown: the one page-wide selection takes the
        chosen id. */
    method SelectElectrician(id: string)
      requires Valid()
      modifies this`selected
      ensures Valid() && selected == id
    {
      selected := id;
    }

    /** The Assign button of the row with store key `key`. It reads the
        page-wide selection, whichever row's dropdown set it, and leaves it
        as it is. Without a store it does nothing; with no selection it
        refuses; a selection that is not on the roster, or a key that is not
        in the store, makes the write fail. Otherwise exactly the assignee
        and the status of that one ticket change, whatever its prior status,
        and no ticket is added or removed. */
    method Assign(key: nat) returns (outcome: AdminOutcome)
      requires Valid()
      modifies this`docs
      ensures Valid() && Retains(old(docs), docs) && |docs| == |old(docs)|
      ensures !online ==> outcome == NoStore
      ensures online && selected == "" ==> outcome == NoSelection
      ensures online && selected != "" ==>
        outcome == if FindById(Roster, selected).Some? && IndexOfKey(old(docs), key).Some?
                   then Done else Failed
      ensures outcome != Done ==> docs == old(docs)
      ensures outcome == Done ==>
        var i := IndexOfKey(old(docs), key).value;
        var elec := Roster[FindById(Roster, selected).value];
        docs == old(docs)[i := Doc(key, AssignTo(old(docs)[i].ticket, elec.username))]
    {
      if !online {
        return NoStore;
      }
      if selected == "" {
        return NoSelection;
      }
      var e := FindById(Roster, selected);
      var i := IndexOfKey(docs, key);
      if e.None? || i.None? {
        return Failed;
      }
      var t := docs[i.value].ticket;
      AssignToValid(t, Roster[e.value].username);
      docs := docs[i.value := Doc(key, AssignTo(t, Roster[e.value].username))];
      outcome := Done;
    }

    /** The trash button, rendered on every row whatever its status. */
    method OpenDelete(key: nat)
      requires Valid()
      modifies this`deleteTarget, this`deleteOpen
      ensures Valid() && deleteTarget == Some(key) && deleteOpen
    {
      deleteTarget := Some(key);
      deleteOpen := true;
    }

    /** Typing the reason into the dialog. */
    method EditReason(reason: string)
      requires Valid()
      modifies this`deleteReason
      ensures Valid() && deleteReason == reason
    {
      deleteReason := reason;
    }

    /** Cancel: closes the dialog and discards the reason; the chosen row is
        left as it was and the store is not touched. */
    method CancelDelete()
      requires Valid()
      modifies this`deleteOpen, this`deleteReason
      ensures Valid() && !deleteOpen && deleteReason == ""
    {
      deleteOpen := false;
      deleteReason := "";
    }

    /** The dialog's Delete button. Without a store, a chosen row or a
        reason it refuses and changes nothing; a key missing from the store
        makes the write fail. Otherwise that one ticket becomes Deleted with
        the reason recorded, its assignee untouched, the record kept, and the
        dialog reset. */
    method ConfirmDelete() returns (outcome: AdminOutcome)
      requires Valid()
      modifies this`docs, this`deleteTarget, this`deleteReason, this`deleteOpen
      ensures Valid() && Retains(old(docs), docs) && |docs| == |old(docs)|
      ensures !online || old(deleteTarget) == None || old(deleteReason) == "" ==> outcome == Refused
      ensures online && old(deleteTarget).Some? && old(deleteReason) != "" ==>
        outcome == if IndexOfKey(old(docs), old(deleteTarget).value).Some? then Done else Failed
      ensures outcome != Done ==>
        && docs == old(docs) && deleteTarget == old(deleteTarget)
        && deleteReason == old(deleteReason) && deleteOpen == old(deleteOpen)
      ensures outcome == Done ==>
        var key := old(deleteTarget).value;
        var i := IndexOfKey(old(docs), key).value;
        && docs == old(docs)[i := Doc(key, SoftDelete(old(docs)[i].ticket, old(deleteReason)))]
        && docs[i].ticket.assignedTo == old(docs)[i].ticket.assignedTo
        && deleteTarget == None && deleteReason == "" && !deleteOpen
    {
      if !online || deleteTarget.None? || deleteReason == "" {
        return Refused;
      }
      var key := deleteTarget.value;
      var i := IndexOfKey(docs, key);
      if i.None? {
        return Failed;
      }
      var t := docs[i.value].ticket;
      SoftDeleteValid(t, deleteReason);
      docs := docs[i.value := Doc(key, SoftDelete(t, deleteReason))];
      deleteOpen := false;
      deleteReason := "";
      deleteTarget := None;
      outcome := Done;
    }

    // -------------------------------------------------------------------
    // Electrician: status buttons
    // -------------------------------------------------------------------

    /** A status button on the card of the ticket with store key `key`. Only
        the signed-in electrician's own tickets have cards; both buttons are
        disabled on a Resolved ticket and on no other; without a store the
        handler returns at once. Otherwise the status becomes the button's,
        the resolution time is set when, and only when, that status is
        Resolved, and nothing else changes. */
    method MarkStatus(key: nat, button: StatusButton, now: string) returns (outcome: ElectricianOutcome)
      requires Valid()
      modifies this`docs
      ensures Valid() && Retains(old(docs), docs) && |docs| == |old(docs)|
      ensures outcome ==
        if !OnCard(old(docs), session, key) then NotShown
        else if old(docs)[IndexOfKey(old(docs), key).value].ticket.status == Resolved then Disabled
        else if !online then Offline
        else Updated
      ensures outcome != Updated ==> docs == old(docs)
      ensures outcome == Updated ==>
        var i := IndexOfKey(old(docs), key).value;
        docs == old(docs)[i := Doc(key, SetStatus(old(docs)[i].ticket, ButtonStatus(button), now))]
    {
      if !OnCard(docs, session, key) {
        return NotShown;
      }
      var i := IndexOfKey(docs, key).value;
      var t := docs[i].ticket;
      if t.status == Resolved {
        return Disabled;
      }
      if !online {
        return Offline;
      }
      SetStatusValid(t, ButtonStatus(button), now);
      docs := docs[i := Doc(key, SetStatus(t, ButtonStatus(button), now))];
      outcome := Updated;
    }
  }

  /** Which accounts the walk-through's two logins find, and which roster
      entry the dropdown id "elec1" selects. */
  lemma WalkThroughAccounts()
    ensures FindAccount(AllowList, "luckyrounak", "@Vishu") == Some(0)
    ensures FindAccount(AllowList, "elec1", "password") == Some(1)
    ensures FindById(Roster, "elec1") == Some(0) && Roster[0] == AllowList[1]
  {
    AllowListFirstMatchIsOnly("luckyrounak", "@Vishu", 0);
    AllowListFirstMatchIsOnly("elec1", "password", 1);
    RosterIsElec1Elec2();
    assert Roster[0].id == "elec1";
  }

  /** The identifier drawn for 1234, and its lower-case spelling. */
  lemma WalkThroughIdentifier()
    ensures TicketId(1234) == "MUZ-1234"
    ensures Upper("muz-1234") == Upper(TicketId(1234))
  {
    TicketIdIsUpper(1234);
    assert forall k :: 0 <= k < 8 ==> Upper("muz-1234")[k] == "MUZ-1234"[k];
  }

  /** The customer's form in the walk-through. */
  const RaviForm := Form("Ravi", "9000000000", "X", "", "842001", "Fan", "not spinning")

  /** The ticket the walk-through's submission creates. */
  const RaviTicket := NewTicket(RaviForm, 1234, "2024-05-01T10:00:00.000Z")

  /** Walk-through, customer side: on a fresh page the customer fills in the
      form, leaving the optional landmark empty. */
  method CustomerFillsForm() returns (app: App)
    ensures fresh(app) && app.Valid() && app.online && app.session == None
    ensures app.docs == [] && app.nextKey == 0 && app.form == RaviForm
  {
    app := new App(true, None, [], 0);
    ghost var f := app.form;
    app.EditField(Name, "Ravi");
    assert app.form == WithField(f, Name, "Ravi");
    f := app.form;
    app.EditField(Phone, "9000000000");
    assert app.form == WithField(f, Phone, "9000000000");
    f := app.form;
    app.EditField(Address, "X");
    assert app.form == WithField(f, Address, "X");
    f := app.form;
    app.EditField(Pincode, "842001");
    assert app.form == WithField(f, Pincode, "842001");
    f := app.form;
    app.EditField(ApplianceType, "Fan");
    assert app.form == WithField(f, ApplianceType, "Fan");
    f := app.form;
    app.EditField(ProblemDescription, "not spinning");
    assert app.form == WithField(f, ProblemDescription, "not spinning");
  }

  /** Walk-through, customer side: the customer submits; the receipt is
      MUZ-1234, the one stored ticket is Pending and unassigned, and the form
      is cleared. */
  method CustomerSubmits(app: App)
    requires app.Valid() && app.online && app.docs == [] && app.nextKey == 0 && app.form == RaviForm
    modifies app
    ensures app.Valid() && app.online && app.session == old(app.session)
    ensures app.docs == [Doc(0, RaviTicket)] && app.form == EmptyForm
    ensures app.docs[0].ticket.status == Pending && app.docs[0].ticket.assignedTo == None
  {
    WalkThroughIdentifier();
    assert Complete(RaviForm);
    var submitted := app.Submit(234, "2024-05-01T10:00:00.000Z", true);
    assert submitted == Submitted("MUZ-1234");
  }

  /** Walk-through, admin side: the admin signs in, picks elec1 in the
      ticket's dropdown, assigns the ticket and signs out. */
  method AdminAssigns(app: App)
    requires app.Valid() && app.online && app.session == None && app.docs == [Doc(0, RaviTicket)]
    modifies app
    ensures app.Valid() && app.online && app.session == None
    ensures app.docs == [Doc(0, AssignTo(RaviTicket, "elec1"))]
    ensures app.docs[0].ticket.status == InProgress && app.docs[0].ticket.assignedTo == Some("elec1")
  {
    WalkThroughAccounts();
    var ok := app.Login("luckyrounak", "@Vishu");
    assert IndexOfKey(app.docs, 0) == Some(0);
    app.SelectElectrician("elec1");
    var assignment := app.Assign(0);
    assert assignment == Done;
    app.Logout();
  }

  /** The selection belongs to the whole table and outlives an assignment:
      once elec1 was picked on one row and that row was assigned, the Assign
      button of any other row assigns it to elec1 as well, although that
      row's own dropdown was never changed. */
  method SelectionCarriesOver(app: App, first: nat, second: nat)
    requires app.Valid() && app.online
    requires IndexOfKey(app.docs, first).Some? && IndexOfKey(app.docs, second).Some?
    modifies app
    ensures app.Valid() && app.selected == "elec1"
    ensures IndexOfKey(app.docs, first) == IndexOfKey(old(app.docs), first)
    ensures IndexOfKey(app.docs, second) == IndexOfKey(old(app.docs), second)
    ensures app.docs[IndexOfKey(app.docs, first).value].ticket.assignedTo == Some("elec1")
    ensures app.docs[IndexOfKey(app.docs, second).value].ticket.assignedTo == Some("elec1")
  {
    WalkThroughAccounts();
    var i := IndexOfKey(app.docs, first).value;
    var j := IndexOfKey(app.docs, second).value;
    app.SelectElectrician("elec1");
    ghost var before := app.docs;
    var one := app.Assign(first);
    IndexOfKeyAfterPatch(before, i, AssignTo(before[i].ticket, "elec1"), first);
    IndexOfKeyAfterPatch(before, i, AssignTo(before[i].ticket, "elec1"), second);
    ghost var middle := app.docs;
    var two := app.Assign(second);
    IndexOfKeyAfterPatch(middle, j, AssignTo(middle[j].ticket, "elec1"), first);
    IndexOfKeyAfterPatch(middle, j, AssignTo(middle[j].ticket, "elec1"), second);
  }

  /** Walk-through, electrician side: elec1 signs in and marks the ticket
      Resolved; after that both buttons are disabled. */
  method ElectricianResolves(app: App)
    requires app.Valid() && app.online && app.session == None
    requires app.docs == [Doc(0, AssignTo(RaviTicket, "elec1"))]
    modifies app
    ensures app.Valid()
    ensures app.docs == [Doc(0, SetStatus(AssignTo(RaviTicket, "elec1"), Resolved, "2024-05-01T12:00:00.000Z"))]
    ensures app.docs[0].ticket.status == Resolved && app.docs[0].ticket.resolvedAt.Some?
  {
    WalkThroughAccounts();
    var ok := app.Login("elec1", "password");
    assert IndexOfKey(app.docs, 0) == Some(0);
    var marked := app.MarkStatus(0, MarkResolved, "2024-05-01T12:00:00.000Z");
    assert marked == Updated;
    var again := app.MarkStatus(0, MarkInProgress, "2024-05-01T13:00:00.000Z");
    assert again == Disabled;
  }

  /** The walk-through of the whole life of one complaint: after the three
      steps above, the customer tracks "muz-1234" in lower case and sees the
      ticket Resolved, and elec1's figures are one assigned, one solved, none
      pending. */
  method EndToEnd()
  {
    var app := CustomerFillsForm();
    CustomerSubmits(app);
    AdminAssigns(app);
    ElectricianResolves(app);
    var docs := app.docs;
    WalkThroughIdentifier();
    TrackCaseInsensitive(docs, "muz-1234", TicketId(1234));
    var found, message := Track(docs, true, "muz-1234");
    assert found == Some(docs[0]) && found.value.ticket.status == Resolved;
    assert Queue(docs, "elec1") == docs;
    assert PerfOf(docs, "elec1") == Perf(1, 1, 0);
  }
}
