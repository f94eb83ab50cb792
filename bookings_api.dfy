/** `/api/bookings`: list bookings, and create one with its enrollments. */
module BookingsApi {
  import opened Wrappers
  import opened Domain
  import opened Seqs
  import opened JsValues
  import Ledger

  /** The fields `POST` reads from the request body. */
  datatype BookingBody = BookingBody(studentIds: JsValue, title: JsValue, startTime: JsValue, endTime: JsValue, notes: JsValue)

  /** One enrollment as handed to the database: `{ studentId: Number(id), attended: false }`. */
  datatype EnrollmentDraft = EnrollmentDraft(studentId: Option<real>, attended: bool)

  /** The booking as handed to the database. */
  datatype BookingDraft = BookingDraft(title: JsValue, startTime: int, endTime: int, notes: JsValue, students: seq<EnrollmentDraft>)

  datatype PostResponse =
    | MissingFields400            // `{ error: "Missing required fields" }`
    | Created201(booking: BookingDraft)
    | Unhandled500                // `studentIds.map` or `prisma.booking.create` threw

  /** The presence check: no ids (absent, falsy or an empty array), or a falsy title, start or end. */
  predicate MissingFields(body: BookingBody) {
    || !Truthy(body.studentIds)
    || body.studentIds == Arr([])
    || !Truthy(body.title) || !Truthy(body.startTime) || !Truthy(body.endTime)
  }

  function EnrollmentFor(studentId: JsValue, parse: string -> Option<real>): EnrollmentDraft {
    EnrollmentDraft(ToNumber(studentId, parse), false)
  }

  /** The record `POST` hands to the database for an array of student ids. */
  function DraftOf(body: BookingBody, parse: string -> Option<real>, toDate: JsValue -> int): (d: BookingDraft)
    requires body.studentIds.Arr?
    ensures d.title == body.title && d.notes == OrNull(body.notes)
    ensures d.startTime == toDate(body.startTime) && d.endTime == toDate(body.endTime)
    ensures |d.students| == |body.studentIds.items|
    ensures forall i :: 0 <= i < |d.students| ==>
      d.students[i] == EnrollmentDraft(ToNumber(body.studentIds.items[i], parse), false)
  {
    BookingDraft(body.title, toDate(body.startTime), toDate(body.endTime), OrNull(body.notes),
                 Map(body.studentIds.items, (id: JsValue) => EnrollmentFor(id, parse)))
  }

  /**
   * `POST /api/bookings`. `parse` reads numbers from strings, `toDate` is
   * `new Date(v).getTime()`, and `create` says whether the database accepts
   * the record (it refuses an unknown or non-numeric student id and an
   * invalid date, and the route has no handler for that).
   */
  function Post(body: BookingBody, parse: string -> Option<real>, toDate: JsValue -> int,
                create: BookingDraft -> bool): (r: PostResponse)
    ensures r.MissingFields400? <==> MissingFields(body)
    ensures r.Unhandled500? <==>
              !MissingFields(body) && (!body.studentIds.Arr? || !create(DraftOf(body, parse, toDate)))
    ensures r.Created201? ==> body.studentIds.Arr? && create(r.booking)
    ensures r.Created201? ==>
      && r.booking.title == body.title
      && r.booking.startTime == toDate(body.startTime) && r.booking.endTime == toDate(body.endTime)
      && r.booking.notes == OrNull(body.notes)
    ensures r.Created201? ==> |r.booking.students| == |body.studentIds.items| > 0
    ensures r.Created201? ==> forall i :: 0 <= i < |r.booking.students| ==>
      r.booking.students[i] == EnrollmentDraft(ToNumber(body.studentIds.items[i], parse), false)
  {
    if MissingFields(body) then MissingFields400
    else if !body.studentIds.Arr? then Unhandled500
    else
      var draft := DraftOf(body, parse, toDate);
      if create(draft) then Created201(draft) else Unhandled500
  }

  /** A booking stored from a created draft: its enrollments keep the draft's flags. */
  predicate StoredFrom(b: Booking, draft: BookingDraft) {
    && |b.students| == |draft.students|
    && (forall i :: 0 <= i < |b.students| ==> b.students[i].attended == draft.students[i].attended)
    && b.startTime == draft.startTime && b.endTime == draft.endTime
  }

  /** A newly created booking has nobody marked as attended, so it adds nothing to any balance. */
  lemma NewBookingBillsNothing(body: BookingBody, parse: string -> Option<real>, toDate: JsValue -> int,
                               create: BookingDraft -> bool, b: Booking, s: Student)
    requires Post(body, parse, toDate, create).Created201?
    requires StoredFrom(b, Post(body, parse, toDate, create).booking)
    ensures Ledger.TotalLessons([b], s.id) == 0.0
    ensures Ledger.TotalOwed([b], s) == 0.0
  {
    var draft := Post(body, parse, toDate, create).booking;
    assert forall i :: 0 <= i < |b.students| ==> !b.students[i].attended;
    assert !Ledger.Attended(b.students, s.id);
    assert [b][1..] == [];
  }

  /**
   * Only presence is checked: a booking that ends before it starts passes the
   * route's checks, and is created whenever the database takes the record.
   */
  lemma EndBeforeStartAccepted(parse: string -> Option<real>, create: BookingDraft -> bool)
    ensures var body := BookingBody(Arr([Num(1.0)]), Str("Piano"), Num(2000.0), Num(1000.0), Undefined);
            var toDate := (v: JsValue) => if v.Num? then v.n.Floor else 0;
            var r := Post(body, parse, toDate, create);
            !r.MissingFields400? &&
            (create(DraftOf(body, parse, toDate)) ==>
               r.Created201? && r.booking.endTime < r.booking.startTime && r.booking.notes == Null)
  {
  }

  /** `GET /api/bookings`: every stored booking, by ascending start time. */
  function List(stored: seq<Booking>): (r: seq<Booking>)
    ensures multiset(r) == multiset(stored)
    ensures forall i, j :: 0 <= i < j < |r| ==> r[i].startTime <= r[j].startTime
  {
    SortBy(stored, StartOf)
  }
}
