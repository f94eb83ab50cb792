/**
 * The records the application stores and passes around: students, bookings
 * with their enrollments, and payments. Times are milliseconds since the
 * epoch; money amounts and rates are exact decimals (`real`).
 */
module Domain {
  import opened Wrappers

  datatype Student = Student(
    id: int,
    firstName: string,
    lastName: string,
    email: string,
    phone: Option<string>,
    image: Option<string>,
    privateRate: real,  // per 45-minute lesson taught alone
    groupRate: real     // per 45-minute lesson in a group
  )

  /** One student's place in one booking; `attended` is toggled by the admin. */
  datatype Enrollment = Enrollment(id: int, studentId: int, attended: bool, student: Student)

  datatype Booking = Booking(
    id: int,
    title: string,
    startTime: int,
    endTime: int,
    notes: Option<string>,
    students: seq<Enrollment>
  )

  datatype Payment = Payment(
    id: int,
    studentId: int,
    amount: real,
    date: int,
    notes: Option<string>,
    bookingId: Option<int>,
    student: Student
  )

  const MsPerMinute: int := 60000

  /** Sort keys: a booking's start, and the negated payment date and student id for descending orders. */
  function StartOf(b: Booking): int {
    b.startTime
  }

  function NegatedDateOf(p: Payment): int {
    -p.date
  }

  function NegatedIdOf(s: Student): int {
    -s.id
  }
}
