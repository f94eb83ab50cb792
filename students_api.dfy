/** `/api/students`: list students, and create one. */
module StudentsApi {
  import opened Wrappers
  import opened Domain
  import opened Seqs
  import opened JsValues
  import Ledger

  /** The fields `POST` reads from the request body. */
  datatype StudentBody = StudentBody(firstName: JsValue, lastName: JsValue, email: JsValue, phone: JsValue,
                                     privateRate: JsValue, groupRate: JsValue, image: JsValue)

  /** A student as handed to the database. */
  datatype StudentDraft = StudentDraft(firstName: JsValue, lastName: JsValue, email: JsValue, phone: JsValue,
                                       image: JsValue, privateRate: real, groupRate: real)

  datatype PostResponse =
    | MissingFields400            // `{ error: "Missing required fields" }`
    | Created201(student: StudentDraft)
    | Unhandled500                // `prisma.student.create` threw

  /** `rate ? parseFloat(rate) : 0.00`. */
  function RateOrZero(rate: JsValue, parseFloat: JsValue -> real): (r: real)
    ensures !Truthy(rate) ==> r == 0.0
    ensures Truthy(rate) ==> r == parseFloat(rate)
  {
    if Truthy(rate) then parseFloat(rate) else 0.0
  }

  /** The record `POST` hands to the database. */
  function DraftOf(body: StudentBody, parseFloat: JsValue -> real): (d: StudentDraft)
    ensures d.firstName == body.firstName && d.lastName == body.lastName && d.email == body.email
    ensures d.phone == OrNull(body.phone) && d.image == OrNull(body.image)
    ensures d.privateRate == RateOrZero(body.privateRate, parseFloat)
    ensures d.groupRate == RateOrZero(body.groupRate, parseFloat)
  {
    StudentDraft(body.firstName, body.lastName, body.email, OrNull(body.phone), OrNull(body.image),
                 RateOrZero(body.privateRate, parseFloat), RateOrZero(body.groupRate, parseFloat))
  }

  /**
   * `POST /api/students`; `parseFloat` is JavaScript's `parseFloat`, and
   * `create` says whether the database accepts the record (the route has no
   * handler for a refusal).
   */
  function Post(body: StudentBody, parseFloat: JsValue -> real, create: StudentDraft -> bool): (r: PostResponse)
    ensures r.MissingFields400? <==> !Truthy(body.firstName) || !Truthy(body.lastName) || !Truthy(body.email)
    ensures r.Unhandled500? <==>
              Truthy(body.firstName) && Truthy(body.lastName) && Truthy(body.email) && !create(DraftOf(body, parseFloat))
    ensures r.Created201? ==> create(r.student)
    ensures r.Created201? ==>
      && r.student.firstName == body.firstName && r.student.lastName == body.lastName && r.student.email == body.email
      && r.student.phone == OrNull(body.phone) && r.student.image == OrNull(body.image)
      && r.student.privateRate == RateOrZero(body.privateRate, parseFloat)
      && r.student.groupRate == RateOrZero(body.groupRate, parseFloat)
  {
    if !Truthy(body.firstName) || !Truthy(body.lastName) || !Truthy(body.email) then MissingFields400
    else
      var draft := DraftOf(body, parseFloat);
      if create(draft) then Created201(draft) else Unhandled500
  }

  /** A student created without rates is charged nothing for any lesson, alone or in a group. */
  lemma NoRatesNoCharge(body: StudentBody, parseFloat: JsValue -> real, create: StudentDraft -> bool,
                        s: Student, bookings: seq<Booking>)
    requires Post(body, parseFloat, create).Created201?
    requires !Truthy(body.privateRate) && !Truthy(body.groupRate)
    requires s.privateRate == Post(body, parseFloat, create).student.privateRate
    requires s.groupRate == Post(body, parseFloat, create).student.groupRate
    ensures Ledger.TotalOwed(bookings, s) == 0.0
  {
    ChargeFree(bookings, s);
  }

  lemma {:induction false} ChargeFree(bookings: seq<Booking>, s: Student)
    requires s.privateRate == 0.0 && s.groupRate == 0.0
    ensures Ledger.TotalOwed(bookings, s) == 0.0
  {
    if bookings != [] {
      ChargeFree(bookings[1..], s);
    }
  }

  /** `GET /api/students`: every stored student, highest id first. */
  function List(stored: seq<Student>): (r: seq<Student>)
    ensures multiset(r) == multiset(stored)
    ensures forall i, j :: 0 <= i < j < |r| ==> r[i].id >= r[j].id
  {
    var r := SortBy(stored, NegatedIdOf);
    assert forall i, j :: 0 <= i < j < |r| ==> NegatedIdOf(r[i]) <= NegatedIdOf(r[j]);
    r
  }
}
