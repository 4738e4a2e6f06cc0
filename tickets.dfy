/** Complaint tickets: the record each document of the complaint collection
    holds, the business identifier `MUZ-NNNN`, the ASCII upper-casing the
    tracking view compares with, and the field patches the three workflows
    write. */
module Tickets {
  import opened Options

  /** The four values the `status` field takes. */
  datatype Status = Pending | InProgress | Resolved | Deleted

  /** The customer's complaint form; every field is free text. */
  datatype Form = Form(name: string, phone: string, address: string, landmark: string,
                       pincode: string, applianceType: string, problemDescription: string)

  /** The form as it starts and as it is reset after a successful submission. */
  const EmptyForm := Form("", "", "", "", "", "", "")

  /** The names of the form's inputs. */
  datatype Field = Name | Phone | Address | Landmark | Pincode | ApplianceType | ProblemDescription

  function FieldValue(f: Form, field: Field): string {
    match field
    case Name => f.name
    case Phone => f.phone
    case Address => f.address
    case Landmark => f.landmark
    case Pincode => f.pincode
    case ApplianceType => f.applianceType
    case ProblemDescription => f.problemDescription
  }

  /** The change handler `{ ...formData, [name]: value }`: the named input
      takes the new value and every other input keeps its own. */
  function WithField(f: Form, field: Field, value: string): (r: Form)
    ensures FieldValue(r, field) == value
    ensures forall other :: other != field ==> FieldValue(r, other) == FieldValue(f, other)
  {
    match field
    case Name => f.(name := value)
    case Phone => f.(phone := value)
    case Address => f.(address := value)
    case Landmark => f.(landmark := value)
    case Pincode => f.(pincode := value)
    case ApplianceType => f.(applianceType := value)
    case ProblemDescription => f.(problemDescription := value)
  }

  /** The browser lets the form be submitted only when every input marked
      `required` is non-empty; the landmark is the one optional input. */
  predicate Complete(f: Form) {
    f.name != "" && f.phone != "" && f.address != "" && f.pincode != ""
    && f.applianceType != "" && f.problemDescription != ""
  }

  /** A document of the complaint collection: the form's fields spread into
      the record, followed by the workflow fields. */
  datatype Ticket = Ticket(form: Form, ticketId: string, status: Status, createdAt: string,
                           assignedTo: Option<string>, resolvedAt: Option<string>,
                           deletedReason: Option<string>)

  /** A stored document: the store's own opaque key and the ticket it holds. */
  datatype Doc = Doc(key: nat, ticket: Ticket)

  // ---------------------------------------------------------------------
  // The business identifier "MUZ-" followed by a number in 1000..9999
  // ---------------------------------------------------------------------

  const IdPrefix: string := "MUZ-"

  predicate IsDigit(c: char) {
    '0' <= c <= '9'
  }

  function DigitChar(d: nat): (c: char)
    requires d < 10
  {
    ('0' as int + d) as char
  }

  function DigitValue(c: char): nat
    requires IsDigit(c)
  {
    c as int - '0' as int
  }

  /** The identifier shown to the customer for the number `n`: JavaScript
      renders an integer between 1000 and 9999 as exactly four decimal
      digits, the first of them not zero. */
  function TicketId(n: nat): (id: string)
    requires 1000 <= n <= 9999
    ensures |id| == 8 && id[..4] == IdPrefix
    ensures forall k :: 4 <= k < 8 ==> IsDigit(id[k])
    ensures id[4] != '0'
  {
    IdPrefix + [DigitChar(n / 1000), DigitChar(n / 100 % 10), DigitChar(n / 10 % 10), DigitChar(n % 10)]
  }

  /** Reads a well-formed identifier back to its number; the inverse of
      TicketId. */
  function TicketNumber(id: string): (r: Option<nat>)
    ensures r.Some? ==> 1000 <= r.value <= 9999
  {
    if |id| == 8 && id[..4] == IdPrefix && IsDigit(id[4]) && IsDigit(id[5]) && IsDigit(id[6])
       && IsDigit(id[7]) && id[4] != '0'
    then Some(1000 * DigitValue(id[4]) + 100 * DigitValue(id[5]) + 10 * DigitValue(id[6]) + DigitValue(id[7]))
    else None
  }

  lemma DecimalDigits(n: nat)
    requires 1000 <= n <= 9999
    ensures 1000 * (n / 1000) + 100 * (n / 100 % 10) + 10 * (n / 10 % 10) + n % 10 == n
  {
    var a, b, c, d := n / 1000, n / 100 % 10, n / 10 % 10, n % 10;
    assert n / 100 == 10 * a + b;
    assert n / 10 == 10 * (n / 100) + c;
    assert n == 10 * (n / 10) + d;
  }

  /** Every number of the generator's range survives the round trip. */
  lemma TicketIdRoundTrip(n: nat)
    requires 1000 <= n <= 9999
    ensures TicketNumber(TicketId(n)) == Some(n)
  {
    var id := TicketId(n);
    assert id[4] == DigitChar(n / 1000) && id[5] == DigitChar(n / 100 % 10);
    assert id[6] == DigitChar(n / 10 % 10) && id[7] == DigitChar(n % 10);
    DecimalDigits(n);
  }

  /** Conversely, every identifier TicketNumber accepts is the one TicketId
      produces for that number, so the well-formed identifiers are exactly
      the generator's outputs. */
  lemma TicketNumberRoundTrip(id: string)
    requires TicketNumber(id).Some?
    ensures TicketId(TicketNumber(id).value) == id
  {
    var n := TicketNumber(id).value;
    var a, b, c, d := DigitValue(id[4]), DigitValue(id[5]), DigitValue(id[6]), DigitValue(id[7]);
    assert n == 1000 * a + 100 * b + 10 * c + d;
    assert n / 10 == 100 * a + 10 * b + c && n % 10 == d;
    assert n / 100 == 10 * a + b && n / 10 % 10 == c;
    assert n / 1000 == a && n / 100 % 10 == b;
    var t := TicketId(n);
    assert t[..4] == id[..4];
    assert forall k :: 0 <= k < 8 ==> t[k] == id[k];
  }

  /** Two draws give the same identifier only when they are the same
      number: a collision is exactly a repeated draw. */
  lemma TicketIdInjective(m: nat, n: nat)
    requires 1000 <= m <= 9999 && 1000 <= n <= 9999
    requires TicketId(m) == TicketId(n)
    ensures m == n
  {
    TicketIdRoundTrip(m);
    TicketIdRoundTrip(n);
  }

  // ---------------------------------------------------------------------
  // ASCII upper-casing (toUpperCase restricted to ASCII letters)
  // ---------------------------------------------------------------------

  function UpperChar(c: char): char {
    if 'a' <= c <= 'z' then (c as int - 32) as char else c
  }

  function Upper(s: string): string {
    seq(|s|, i requires 0 <= i < |s| => UpperChar(s[i]))
  }

  /** Upper-casing twice is upper-casing once; this is why the tracking
      input, already upper-cased as it is typed, compares the same way. */
  lemma UpperIdempotent(s: string)
    ensures Upper(Upper(s)) == Upper(s)
  {
    var u := Upper(s);
    assert forall i :: 0 <= i < |s| ==> Upper(u)[i] == UpperChar(UpperChar(s[i])) == u[i];
  }

  /** Generated identifiers are already upper case, so a tracking number
      typed in lower case still meets the identifier it names. */
  lemma TicketIdIsUpper(n: nat)
    requires 1000 <= n <= 9999
    ensures Upper(TicketId(n)) == TicketId(n)
  {
    var id := TicketId(n);
    assert id[0] == 'M' && id[1] == 'U' && id[2] == 'Z' && id[3] == '-';
    assert forall k :: 0 <= k < 8 ==> Upper(id)[k] == id[k];
  }

  // ---------------------------------------------------------------------
  // Records and patches
  // ---------------------------------------------------------------------

  /** The record the customer workflow writes for the form `f`, the drawn
      number `n` and the creation time `now`. */
  function NewTicket(f: Form, n: nat, now: string): Ticket
    requires 1000 <= n <= 9999
  {
    Ticket(f, TicketId(n), Pending, now, None, None, None)
  }

  /** The admin's assignment patch: assignee and status, nothing else. */
  function AssignTo(t: Ticket, username: string): Ticket {
    t.(assignedTo := Some(username), status := InProgress)
  }

  /** The admin's soft-delete patch: status and reason, nothing else. */
  function SoftDelete(t: Ticket, reason: string): Ticket {
    t.(status := Deleted, deletedReason := Some(reason))
  }

  /** The electrician's status patch: the status, plus the resolution time
      when, and only when, the new status is Resolved. */
  function SetStatus(t: Ticket, s: Status, now: string): Ticket {
    if s == Resolved then t.(status := s, resolvedAt := Some(now)) else t.(status := s)
  }

  /** What every stored ticket satisfies, given the operations of this
      system: a well-formed identifier; a Pending ticket was never touched;
      an In Progress or Resolved ticket has an assignee; a Resolved one has
      a resolution time; a Deleted one has a non-empty reason. */
  predicate TicketInvariant(t: Ticket) {
    && TicketNumber(t.ticketId).Some?
    && (t.status == Pending ==> t.assignedTo == None && t.resolvedAt == None && t.deletedReason == None)
    && (t.status == InProgress || t.status == Resolved ==> t.assignedTo.Some?)
    && (t.status == Resolved ==> t.resolvedAt.Some?)
    && (t.status == Deleted ==> t.deletedReason.Some? && t.deletedReason.value != "")
  }

  /** A newly created ticket is Pending, unassigned, carries the form
      unchanged and the identifier shown for its number, and satisfies the
      invariant. */
  lemma NewTicketValid(f: Form, n: nat, now: string)
    requires 1000 <= n <= 9999
    ensures var t := NewTicket(f, n, now);
      t.status == Pending && t.assignedTo == None && t.form == f && t.ticketId == TicketId(n)
      && TicketNumber(t.ticketId) == Some(n) && TicketInvariant(t)
  {
    TicketIdRoundTrip(n);
  }

  /** Assignment keeps the invariant whatever the prior status was. */
  lemma AssignToValid(t: Ticket, username: string)
    requires TicketInvariant(t)
    ensures TicketInvariant(AssignTo(t, username))
  {
  }

  /** A soft delete with a non-empty reason keeps the invariant whatever the
      prior status was, Resolved included. */
  lemma SoftDeleteValid(t: Ticket, reason: string)
    requires TicketInvariant(t) && reason != ""
    ensures TicketInvariant(SoftDelete(t, reason))
  {
  }

  /** The electrician's two buttons keep the invariant on a ticket that has
      an assignee (every ticket in an electrician's queue has one). */
  lemma SetStatusValid(t: Ticket, s: Status, now: string)
    requires TicketInvariant(t) && t.assignedTo.Some?
    requires s == InProgress || s == Resolved
    ensures TicketInvariant(SetStatus(t, s, now))
  {
  }
}
