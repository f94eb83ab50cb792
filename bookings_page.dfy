/**
 * The bookings page: toggling one student's attendance in one booking, the
 * local update of the booking list after the server accepts it, and the list
 * of bookings on a selected calendar day.
 */
module BookingsPage {
  import opened Wrappers
  import opened Domain
  import opened Seqs
  import Ledger

  /** `booking.students.find(bs => bs.studentId === studentId)` */
  function FindEnrollment(es: seq<Enrollment>, studentId: int): (r: Option<Enrollment>)
    ensures r.None? <==> forall i :: 0 <= i < |es| ==> es[i].studentId != studentId
    ensures r.Some? ==> r.value in es && r.value.studentId == studentId
    ensures r.Some? ==> exists i :: 0 <= i < |es| && es[i] == r.value && FirstFor(es, studentId, i)
  {
    if es == [] then None
    else if es[0].studentId == studentId then Some(es[0])
    else
      var r := FindEnrollment(es[1..], studentId);
      if r.None? then r
      else
        var i :| 0 <= i < |es[1..]| && es[1..][i] == r.value && FirstFor(es[1..], studentId, i);
        assert es[i + 1] == r.value && FirstFor(es, studentId, i + 1);
        r
  }

  /** `es[i]` is the student's first enrollment in `es`. */
  predicate FirstFor(es: seq<Enrollment>, studentId: int, i: int)
    requires 0 <= i < |es|
  {
    es[i].studentId == studentId && forall j :: 0 <= j < i ==> es[j].studentId != studentId
  }

  /** All of the student's enrollments in `es` carry the same flag (true when they are enrolled once). */
  predicate ConsistentFlags(es: seq<Enrollment>, studentId: int) {
    forall i, j :: 0 <= i < |es| && 0 <= j < |es| && es[i].studentId == studentId && es[j].studentId == studentId
      ==> es[i].attended == es[j].attended
  }

  /** The new value of the flag: the current one negated, a missing enrollment counting as not attended. */
  function NewAttended(b: Booking, studentId: int): (v: bool)
    ensures (forall i :: 0 <= i < |b.students| ==> b.students[i].studentId != studentId) ==> v
    ensures forall i :: 0 <= i < |b.students| && FirstFor(b.students, studentId, i) ==> v == !b.students[i].attended
    ensures ConsistentFlags(b.students, studentId) ==>
      forall i :: 0 <= i < |b.students| && b.students[i].studentId == studentId ==> v == !b.students[i].attended
  {
    var current := FindEnrollment(b.students, studentId);
    var currentAttended := current.Some? && current.value.attended;
    !currentAttended
  }

  /** The inner `map`: the student's enrollments get the new flag, nothing else changes. */
  function SetAttendedIn(es: seq<Enrollment>, studentId: int, attended: bool): (r: seq<Enrollment>)
    ensures |r| == |es|
    ensures forall i :: 0 <= i < |es| ==>
      r[i] == es[i].(attended := if es[i].studentId == studentId then attended else es[i].attended)
  {
    if es == [] then []
    else
      var e := es[0];
      [if e.studentId == studentId then e.(attended := attended) else e] + SetAttendedIn(es[1..], studentId, attended)
  }

  /** The outer `map`: only the booking with the given id is touched. */
  function SetAttendance(bookings: seq<Booking>, bookingId: int, studentId: int, attended: bool): (r: seq<Booking>)
    ensures |r| == |bookings|
    ensures forall i :: 0 <= i < |bookings| ==>
      r[i] == if bookings[i].id == bookingId
              then bookings[i].(students := SetAttendedIn(bookings[i].students, studentId, attended))
              else bookings[i]
  {
    if bookings == [] then []
    else
      var b := bookings[0];
      [if b.id == bookingId then b.(students := SetAttendedIn(b.students, studentId, attended)) else b]
        + SetAttendance(bookings[1..], bookingId, studentId, attended)
  }

  /** The PUT request body sent to the booking's update endpoint. */
  datatype AttendanceRequest = AttendanceRequest(
    bookingId: int, studentId: int, title: string, startTime: int, endTime: int,
    notes: Option<string>, attended: bool)

  /** What came back: a thrown fetch, or a response with its `ok` flag and its JSON `error` field. */
  datatype Reply = NetworkError | Response(ok: bool, error: Option<string>)

  datatype AttendanceOutcome = AttendanceOutcome(request: AttendanceRequest, bookings: seq<Booking>, alert: Option<string>)

  /** `handleAttended`: send the toggled flag and, if the server accepts it, update the local list. */
  function HandleAttended(bookings: seq<Booking>, booking: Booking, studentId: int, reply: Reply): (o: AttendanceOutcome)
    ensures o.request.bookingId == booking.id && o.request.studentId == studentId
    ensures o.request.attended == NewAttended(booking, studentId)
    ensures reply.Response? && reply.ok ==>
      o.bookings == SetAttendance(bookings, booking.id, studentId, o.request.attended) && o.alert.None?
    ensures !(reply.Response? && reply.ok) ==> o.bookings == bookings && o.alert.Some?
  {
    var newAttended := NewAttended(booking, studentId);
    var request := AttendanceRequest(booking.id, studentId, booking.title, booking.startTime,
                                     booking.endTime, booking.notes, newAttended);
    match reply
    case NetworkError =>
      AttendanceOutcome(request, bookings, Some("Error updating attendance"))
    case Response(ok, error) =>
      if ok then AttendanceOutcome(request, SetAttendance(bookings, booking.id, studentId, newAttended), None)
      else
        var reason := if error.Some? && error.value != "" then error.value else "Unknown error";
        AttendanceOutcome(request, bookings, Some("Failed to update attendance: " + reason))
  }

  /**
   * `getBookingsForSelectedDate`: no selected date shows nothing; otherwise the
   * bookings starting on the same local calendar day (`sameDay`, which stands
   * for comparing `toDateString()`).
   */
  function BookingsForSelectedDate(bookings: seq<Booking>, selected: Option<int>, sameDay: (int, int) -> bool): (r: seq<Booking>)
    ensures selected.None? ==> r == []
    ensures selected.Some? ==> IsSubsequence(r, bookings)
    ensures selected.Some? ==> forall b :: b in r <==> b in bookings && sameDay(b.startTime, selected.value)
  {
    if selected.None? then []
    else
      var onDay := (b: Booking) => sameDay(b.startTime, selected.value);
      FilterIsSubsequence(bookings, onDay);
      forall b ensures b in Filter(bookings, onDay) <==> b in bookings && onDay(b) {
        FilterMembership(bookings, onDay, b);
      }
      Filter(bookings, onDay)
  }

  // ---------------------------------------------------------------------
  // Properties
  // ---------------------------------------------------------------------

  /** After setting the flag, the student counts as attending exactly when the flag is set and they are enrolled. */
  lemma AttendedAfterSet(es: seq<Enrollment>, studentId: int, attended: bool, other: int)
    ensures Ledger.Attended(SetAttendedIn(es, studentId, attended), other) ==
      if other == studentId then attended && (exists i :: 0 <= i < |es| && es[i].studentId == studentId)
      else Ledger.Attended(es, other)
  {
    var r := SetAttendedIn(es, studentId, attended);
    if Ledger.Attended(r, other) {
      var i :| 0 <= i < |r| && r[i].studentId == other && r[i].attended;
      assert es[i].studentId == other;
    }
    if other != studentId && Ledger.Attended(es, other) {
      var i :| 0 <= i < |es| && es[i].studentId == other && es[i].attended;
      assert r[i].studentId == other && r[i].attended;
    }
    if other == studentId && attended && exists i :: 0 <= i < |es| && es[i].studentId == studentId {
      var i :| 0 <= i < |es| && es[i].studentId == studentId;
      assert r[i].studentId == other && r[i].attended;
    }
  }

  /** The filter `b => b.id !== bookingId`. */
  function NotBooking(bookingId: int): Booking -> bool {
    (b: Booking) => b.id != bookingId
  }

  /**
   * Un-attending: recomputing the student's lessons after their flag is cleared
   * in a booking gives the total over the other bookings only.
   */
  lemma {:induction false} UnattendRemovesLessons(bookings: seq<Booking>, bookingId: int, studentId: int)
    ensures Ledger.TotalLessons(SetAttendance(bookings, bookingId, studentId, false), studentId)
         == Ledger.TotalLessons(Filter(bookings, NotBooking(bookingId)), studentId)
  {
    if bookings != [] {
      var b := bookings[0];
      var after := SetAttendance(bookings, bookingId, studentId, false);
      assert after[1..] == SetAttendance(bookings[1..], bookingId, studentId, false);
      UnattendRemovesLessons(bookings[1..], bookingId, studentId);
      if b.id == bookingId {
        AttendedAfterSet(b.students, studentId, false, studentId);
        assert Ledger.LessonsIn(after[0], studentId) == 0.0;
      }
    }
  }

  /** One booking after a flag change, as another student's ledger sees it. */
  lemma BookingUnchangedForOther(b: Booking, bookingId: int, studentId: int, attended: bool, other: Student)
    requires other.id != studentId
    ensures var b' := if b.id == bookingId then b.(students := SetAttendedIn(b.students, studentId, attended)) else b;
      Ledger.LessonsIn(b', other.id) == Ledger.LessonsIn(b, other.id) && Ledger.ChargeIn(b', other) == Ledger.ChargeIn(b, other)
  {
    AttendedAfterSet(b.students, studentId, attended, other.id);
  }

  /** Toggling one student's attendance never changes another student's lessons. */
  lemma {:induction false} OtherStudentsLessonsUnaffected(bookings: seq<Booking>, bookingId: int, studentId: int, attended: bool, other: Student)
    requires other.id != studentId
    ensures Ledger.TotalLessons(SetAttendance(bookings, bookingId, studentId, attended), other.id)
         == Ledger.TotalLessons(bookings, other.id)
  {
    if bookings != [] {
      var after := SetAttendance(bookings, bookingId, studentId, attended);
      assert after[1..] == SetAttendance(bookings[1..], bookingId, studentId, attended);
      OtherStudentsLessonsUnaffected(bookings[1..], bookingId, studentId, attended, other);
      BookingUnchangedForOther(bookings[0], bookingId, studentId, attended, other);
    }
  }

  /** Toggling one student's attendance never changes what another student owes. */
  lemma {:induction false} OtherStudentsChargesUnaffected(bookings: seq<Booking>, bookingId: int, studentId: int, attended: bool, other: Student)
    requires other.id != studentId
    ensures Ledger.TotalOwed(SetAttendance(bookings, bookingId, studentId, attended), other)
         == Ledger.TotalOwed(bookings, other)
  {
    if bookings != [] {
      var after := SetAttendance(bookings, bookingId, studentId, attended);
      assert after[1..] == SetAttendance(bookings[1..], bookingId, studentId, attended);
      OtherStudentsChargesUnaffected(bookings[1..], bookingId, studentId, attended, other);
      BookingUnchangedForOther(bookings[0], bookingId, studentId, attended, other);
    }
  }

  /** Setting a flag that every one of the student's enrollments already has changes nothing. */
  lemma SetSameFlag(es: seq<Enrollment>, studentId: int, attended: bool)
    requires forall i :: 0 <= i < |es| && es[i].studentId == studentId ==> es[i].attended == attended
    ensures SetAttendedIn(es, studentId, attended) == es
  {
    var r := SetAttendedIn(es, studentId, attended);
    forall i | 0 <= i < |es| ensures r[i] == es[i] {
    }
  }

  /** After setting the flag to `v`, the toggle computes `!v` when the student is enrolled. */
  lemma ToggleAfterSet(b: Booking, studentId: int, v: bool)
    ensures var es1 := SetAttendedIn(b.students, studentId, v);
      (exists i :: 0 <= i < |b.students| && b.students[i].studentId == studentId) ==>
      NewAttended(b.(students := es1), studentId) == !v
  {
    var es1 := SetAttendedIn(b.students, studentId, v);
    if i :| 0 <= i < |b.students| && b.students[i].studentId == studentId {
      var found := FindEnrollment(es1, studentId);
      assert found.Some? by {
        assert es1[i].studentId == studentId;
      }
      var j :| 0 <= j < |es1| && es1[j] == found.value;
      assert es1[j].attended == v;
    }
  }

  /** Setting a flag the student's enrollments all lack, then its negation, restores them. */
  lemma SetTwiceRestores(es: seq<Enrollment>, studentId: int, v: bool)
    requires forall j :: 0 <= j < |es| && es[j].studentId == studentId ==> es[j].attended == !v
    ensures SetAttendedIn(SetAttendedIn(es, studentId, v), studentId, !v) == es
  {
    var es2 := SetAttendedIn(SetAttendedIn(es, studentId, v), studentId, !v);
    forall j | 0 <= j < |es| ensures es2[j] == es[j] {
    }
  }

  /** Within one booking: setting the toggled flag, then toggling again, restores the enrollments. */
  lemma ToggleEnrollmentsTwice(b: Booking, studentId: int)
    requires ConsistentFlags(b.students, studentId)
    ensures var b1 := b.(students := SetAttendedIn(b.students, studentId, NewAttended(b, studentId)));
      SetAttendedIn(b1.students, studentId, NewAttended(b1, studentId)) == b.students
  {
    var es := b.students;
    var v1 := NewAttended(b, studentId);
    var b1 := b.(students := SetAttendedIn(es, studentId, v1));
    if i :| 0 <= i < |es| && es[i].studentId == studentId {
      ToggleAfterSet(b, studentId, v1);
      assert v1 == !es[i].attended;
      forall j | 0 <= j < |es| && es[j].studentId == studentId ensures es[j].attended == !v1 {
        assert es[j].attended == es[i].attended;
      }
      SetTwiceRestores(es, studentId, v1);
    } else {
      SetSameFlag(es, studentId, v1);
      assert b1 == b;
    }
  }

  /** Two flag updates of the booking at `k` that undo each other within it restore the list. */
  lemma SetAttendanceRestores(bookings: seq<Booking>, k: nat, studentId: int, v1: bool, v2: bool)
    requires k < |bookings|
    requires forall j :: 0 <= j < |bookings| && bookings[j].id == bookings[k].id ==> j == k
    requires SetAttendedIn(SetAttendedIn(bookings[k].students, studentId, v1), studentId, v2) == bookings[k].students
    ensures SetAttendance(SetAttendance(bookings, bookings[k].id, studentId, v1), bookings[k].id, studentId, v2) == bookings
  {
    var first := SetAttendance(bookings, bookings[k].id, studentId, v1);
    var second := SetAttendance(first, bookings[k].id, studentId, v2);
    forall j | 0 <= j < |bookings| ensures second[j] == bookings[j] {
      if j != k {
        assert first[j] == bookings[j];
      }
    }
  }

  /**
   * Two successful toggles of the same student in the same booking restore the
   * list, provided booking ids are unique and the student's flags in it agree.
   */
  lemma ToggleTwiceRestores(bookings: seq<Booking>, k: nat, studentId: int)
    requires k < |bookings|
    requires forall j :: 0 <= j < |bookings| && bookings[j].id == bookings[k].id ==> j == k
    requires ConsistentFlags(bookings[k].students, studentId)
    ensures
      var first := HandleAttended(bookings, bookings[k], studentId, Response(true, None)).bookings;
      HandleAttended(first, first[k], studentId, Response(true, None)).bookings == bookings
  {
    var b := bookings[k];
    var first := HandleAttended(bookings, b, studentId, Response(true, None)).bookings;
    var b1 := first[k];
    assert b1 == b.(students := SetAttendedIn(b.students, studentId, NewAttended(b, studentId)));
    ToggleEnrollmentsTwice(b, studentId);
    SetAttendanceRestores(bookings, k, studentId, NewAttended(b, studentId), NewAttended(b1, studentId));
  }
}
