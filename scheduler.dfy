/**
 * The reminder scheduler. Once started, a job runs every minute; each run
 * reads the lead time `m`, finds the bookings that start in the one-minute
 * window `[now + m min, now + (m + 1) min)` and sends a reminder to every
 * student enrolled in each of them.
 */
module Scheduler {
  import opened Wrappers
  import opened Domain
  import opened Seqs
  import opened EmailSettings
  import Email
  import BookingsPage

  // ---------------------------------------------------------------------
  // The matching window
  // ---------------------------------------------------------------------

  /** `new Date(ms).getTime()` for a fractional `ms`: the fraction is dropped (toward zero). */
  function DateOf(ms: real): (t: int)
    ensures ms >= 0.0 ==> t as real <= ms < t as real + 1.0
    ensures ms < 0.0 ==> t as real - 1.0 < ms <= t as real
  {
    if ms >= 0.0 then ms.Floor else -((-ms).Floor)
  }

  function WindowStart(now: int, minutesBefore: real): int {
    DateOf(now as real + minutesBefore * 60.0 * 1000.0)
  }

  function WindowEnd(now: int, minutesBefore: real): int {
    DateOf(now as real + (minutesBefore + 1.0) * 60.0 * 1000.0)
  }

  /** The booking filter `startTime >= startWindow && startTime < endWindow`. */
  function StartsBetween(startWindow: int, endWindow: int): Booking -> bool {
    (b: Booking) => startWindow <= b.startTime < endWindow
  }

  /** The bookings one run matches, in the order the store returns them. */
  function Upcoming(stored: seq<Booking>, now: int, minutesBefore: real): seq<Booking> {
    Filter(stored, StartsBetween(WindowStart(now, minutesBefore), WindowEnd(now, minutesBefore)))
  }

  /** Shifting a non-negative time by whole milliseconds shifts its `Date` by the same amount. */
  lemma DateOfShift(ms: real, k: int)
    requires ms >= 0.0 && k >= 0
    ensures DateOf(ms + k as real) == DateOf(ms) + k
  {
  }

  /** Away from negative times the window is exactly one minute wide. */
  lemma WindowIsOneMinute(now: int, minutesBefore: real)
    requires now as real + minutesBefore * 60000.0 >= 0.0
    ensures WindowEnd(now, minutesBefore) - WindowStart(now, minutesBefore) == MsPerMinute
  {
    DateOfShift(now as real + minutesBefore * 60000.0, 60000);
    assert now as real + (minutesBefore + 1.0) * 60.0 * 1000.0 == now as real + minutesBefore * 60000.0 + 60000 as real;
  }

  /** The window of a run one minute later starts where this run's window ends, so windows never overlap. */
  lemma NextWindowAdjacent(now: int, minutesBefore: real)
    ensures WindowStart(now + MsPerMinute, minutesBefore) == WindowEnd(now, minutesBefore)
  {
    assert (now + MsPerMinute) as real + minutesBefore * 60.0 * 1000.0
        == now as real + (minutesBefore + 1.0) * 60.0 * 1000.0;
  }

  /** The window of the `k`-th run after `now` is this run's window shifted by `k` minutes. */
  lemma LaterWindow(now: int, minutesBefore: real, k: nat)
    requires now as real + minutesBefore * 60000.0 >= 0.0
    ensures WindowStart(now + k * MsPerMinute, minutesBefore) == WindowStart(now, minutesBefore) + k * MsPerMinute
    ensures WindowEnd(now + k * MsPerMinute, minutesBefore) == WindowStart(now, minutesBefore) + (k + 1) * MsPerMinute
  {
    var x := now as real + minutesBefore * 60000.0;
    assert (now + k * MsPerMinute) as real + minutesBefore * 60.0 * 1000.0 == x + (k * MsPerMinute) as real;
    DateOfShift(x, k * MsPerMinute);
    WindowIsOneMinute(now + k * MsPerMinute, minutesBefore);
  }

  /**
   * With runs exactly one minute apart from `now`, a booking that starts at
   * or after the first window is matched by exactly one run: the `k`-th,
   * where `k` counts the whole minutes between the first window and its start.
   */
  lemma MatchedByExactlyOneRun(now: int, minutesBefore: real, startTime: int, k: nat)
    requires now as real + minutesBefore * 60000.0 >= 0.0
    requires startTime >= WindowStart(now, minutesBefore)
    ensures var run := now + k * MsPerMinute;
            WindowStart(run, minutesBefore) <= startTime < WindowEnd(run, minutesBefore)
            <==> k == (startTime - WindowStart(now, minutesBefore)) / MsPerMinute
  {
    LaterWindow(now, minutesBefore, k);
  }

  /** With a two-minute lead time a run at `now` matches a class at `now` + 2.5 min, not at + 1:59 or + 3:01. */
  lemma TwoMinuteExample(now: nat)
    ensures WindowStart(now, 2.0) == now + 120000 && WindowEnd(now, 2.0) == now + 180000
    ensures StartsBetween(WindowStart(now, 2.0), WindowEnd(now, 2.0))(Booking(1, "", now + 150000, now + 195000, None, []))
    ensures !StartsBetween(WindowStart(now, 2.0), WindowEnd(now, 2.0))(Booking(2, "", now + 119000, now + 164000, None, []))
    ensures !StartsBetween(WindowStart(now, 2.0), WindowEnd(now, 2.0))(Booking(3, "", now + 181000, now + 226000, None, []))
  {
    DateOfShift(now as real, 120000);
    DateOfShift(now as real, 180000);
  }

  // ---------------------------------------------------------------------
  // The reminders one run sends
  // ---------------------------------------------------------------------

  /** The arguments of one `sendClassReminderEmail` call. */
  datatype Reminder = Reminder(email: string, name: string, title: string, startTime: int, minutesBefore: real)

  /** One send and what it reported. */
  datatype Attempt = Attempt(reminder: Reminder, result: Email.SendResult)

  function ReminderFor(b: Booking, e: Enrollment, minutesBefore: real): Reminder {
    Reminder(e.student.email, e.student.firstName + " " + e.student.lastName, b.title, b.startTime, minutesBefore)
  }

  function Send(r: Reminder, show: real -> string, transport: Email.Message -> Email.Delivery): Email.SendResult {
    Email.SendClassReminderEmail(r.email, r.name, r.title, r.startTime, Some(r.minutesBefore), show, transport)
  }

  /** One attempt per enrolled student of `b`, in enrollment order. */
  function BookingAttempts(b: Booking, minutesBefore: real, show: real -> string,
                           transport: Email.Message -> Email.Delivery): (r: seq<Attempt>)
    ensures |r| == |b.students|
    ensures forall j :: 0 <= j < |r| ==> r[j].reminder == ReminderFor(b, b.students[j], minutesBefore)
    ensures forall j :: 0 <= j < |r| ==> r[j].result == Send(r[j].reminder, show, transport)
  {
    seq(|b.students|, j requires 0 <= j < |b.students| =>
      var rem := ReminderFor(b, b.students[j], minutesBefore);
      Attempt(rem, Send(rem, show, transport)))
  }

  /** The attempts of one run over the matched bookings, booking by booking. */
  function TickAttempts(bookings: seq<Booking>, minutesBefore: real, show: real -> string,
                        transport: Email.Message -> Email.Delivery): seq<Attempt>
  {
    if bookings == [] then []
    else BookingAttempts(bookings[0], minutesBefore, show, transport)
         + TickAttempts(bookings[1..], minutesBefore, show, transport)
  }

  /** Number of enrollments across `bookings`. */
  function EnrollmentCount(bookings: seq<Booking>): nat {
    if bookings == [] then 0 else |bookings[0].students| + EnrollmentCount(bookings[1..])
  }

  function RemindersOf(attempts: seq<Attempt>): (r: seq<Reminder>)
    ensures |r| == |attempts|
    ensures forall i :: 0 <= i < |attempts| ==> r[i] == attempts[i].reminder
  {
    seq(|attempts|, i requires 0 <= i < |attempts| => attempts[i].reminder)
  }

  lemma {:induction false} TickAttemptsAppend(a: seq<Booking>, b: Booking, minutesBefore: real,
                                              show: real -> string, transport: Email.Message -> Email.Delivery)
    ensures TickAttempts(a + [b], minutesBefore, show, transport)
         == TickAttempts(a, minutesBefore, show, transport) + BookingAttempts(b, minutesBefore, show, transport)
  {
    if a == [] {
      assert a + [b] == [b];
    } else {
      assert (a + [b])[1..] == a[1..] + [b];
      TickAttemptsAppend(a[1..], b, minutesBefore, show, transport);
    }
  }

  /** A run makes one attempt per enrollment of the matched bookings. */
  lemma {:induction false} AttemptsPerEnrollment(bookings: seq<Booking>, minutesBefore: real,
                                                 show: real -> string, transport: Email.Message -> Email.Delivery)
    ensures |TickAttempts(bookings, minutesBefore, show, transport)| == EnrollmentCount(bookings)
  {
    if bookings != [] {
      AttemptsPerEnrollment(bookings[1..], minutesBefore, show, transport);
    }
  }

  /** Every student enrolled in a matched booking is sent a reminder for it. */
  lemma {:induction false} EveryEnrolledStudentReminded(bookings: seq<Booking>, k: nat, j: nat, minutesBefore: real,
                                                        show: real -> string, transport: Email.Message -> Email.Delivery)
    requires k < |bookings| && j < |bookings[k].students|
    ensures ReminderFor(bookings[k], bookings[k].students[j], minutesBefore)
            in RemindersOf(TickAttempts(bookings, minutesBefore, show, transport))
  {
    var head := BookingAttempts(bookings[0], minutesBefore, show, transport);
    var rest := TickAttempts(bookings[1..], minutesBefore, show, transport);
    var all := TickAttempts(bookings, minutesBefore, show, transport);
    var r := ReminderFor(bookings[k], bookings[k].students[j], minutesBefore);
    assert all == head + rest;
    RemindersOfAppend(head, rest);
    if k == 0 {
      assert RemindersOf(head)[j] == r;
    } else {
      assert bookings[1..][k - 1] == bookings[k];
      EveryEnrolledStudentReminded(bookings[1..], k - 1, j, minutesBefore, show, transport);
      assert r in RemindersOf(rest);
    }
  }

  /** The reminders of a run, independently of sending: one per enrollment, booking by booking. */
  function TickReminders(bookings: seq<Booking>, minutesBefore: real): seq<Reminder> {
    if bookings == [] then []
    else seq(|bookings[0].students|, j requires 0 <= j < |bookings[0].students| =>
           ReminderFor(bookings[0], bookings[0].students[j], minutesBefore))
         + TickReminders(bookings[1..], minutesBefore)
  }

  lemma RemindersOfAppend(a: seq<Attempt>, b: seq<Attempt>)
    ensures RemindersOf(a + b) == RemindersOf(a) + RemindersOf(b)
  {
  }

  /**
   * A failed send does not stop the run: the reminders attempted are the
   * same whatever the transport reports.
   */
  lemma {:induction false} RemindersIndependentOfTransport(bookings: seq<Booking>, minutesBefore: real, show: real -> string,
                                                           transport: Email.Message -> Email.Delivery)
    ensures RemindersOf(TickAttempts(bookings, minutesBefore, show, transport)) == TickReminders(bookings, minutesBefore)
  {
    if bookings != [] {
      RemindersIndependentOfTransport(bookings[1..], minutesBefore, show, transport);
      RemindersOfAppend(BookingAttempts(bookings[0], minutesBefore, show, transport),
                        TickAttempts(bookings[1..], minutesBefore, show, transport));
    }
  }

  /** Marking attendance changes neither which bookings a run matches nor whom it reminds. */
  lemma {:induction false} AttendanceDoesNotAffectUpcoming(bookings: seq<Booking>, bookingId: int, studentId: int, attended: bool,
                                                           lo: int, hi: int)
    ensures Filter(BookingsPage.SetAttendance(bookings, bookingId, studentId, attended), StartsBetween(lo, hi))
         == BookingsPage.SetAttendance(Filter(bookings, StartsBetween(lo, hi)), bookingId, studentId, attended)
  {
    if bookings != [] {
      var set1 := BookingsPage.SetAttendance(bookings, bookingId, studentId, attended);
      assert set1[1..] == BookingsPage.SetAttendance(bookings[1..], bookingId, studentId, attended);
      AttendanceDoesNotAffectUpcoming(bookings[1..], bookingId, studentId, attended, lo, hi);
      if StartsBetween(lo, hi)(bookings[0]) {
        var f := Filter(bookings, StartsBetween(lo, hi));
        assert f == [bookings[0]] + Filter(bookings[1..], StartsBetween(lo, hi));
        assert BookingsPage.SetAttendance(f, bookingId, studentId, attended)[1..]
            == BookingsPage.SetAttendance(f[1..], bookingId, studentId, attended);
      }
    }
  }

  lemma BookingAttemptsIgnoreAttendance(b: Booking, studentId: int, attended: bool, minutesBefore: real,
                                        show: real -> string, transport: Email.Message -> Email.Delivery)
    ensures BookingAttempts(b.(students := BookingsPage.SetAttendedIn(b.students, studentId, attended)), minutesBefore, show, transport)
         == BookingAttempts(b, minutesBefore, show, transport)
  {
  }

  lemma {:induction false} AttendanceDoesNotAffectReminders(bookings: seq<Booking>, bookingId: int, studentId: int, attended: bool,
                                                            minutesBefore: real, show: real -> string,
                                                            transport: Email.Message -> Email.Delivery)
    ensures TickAttempts(BookingsPage.SetAttendance(bookings, bookingId, studentId, attended), minutesBefore, show, transport)
         == TickAttempts(bookings, minutesBefore, show, transport)
  {
    if bookings != [] {
      var set1 := BookingsPage.SetAttendance(bookings, bookingId, studentId, attended);
      assert set1[1..] == BookingsPage.SetAttendance(bookings[1..], bookingId, studentId, attended);
      AttendanceDoesNotAffectReminders(bookings[1..], bookingId, studentId, attended, minutesBefore, show, transport);
      BookingAttemptsIgnoreAttendance(bookings[0], studentId, attended, minutesBefore, show, transport);
    }
  }

  /** The inner loop of one run: a reminder to each student enrolled in `booking`, in order. */
  method SendBookingReminders(booking: Booking, minutesBefore: real, show: real -> string,
                              transport: Email.Message -> Email.Delivery)
    returns (sent: seq<Attempt>)
    ensures sent == BookingAttempts(booking, minutesBefore, show, transport)
  {
    ghost var planned := BookingAttempts(booking, minutesBefore, show, transport);
    sent := [];
    for j := 0 to |booking.students|
      invariant sent == planned[..j]
    {
      var bookingStudent := booking.students[j];
      var name := bookingStudent.student.firstName + " " + bookingStudent.student.lastName;
      var result := Email.SendClassReminderEmail(bookingStudent.student.email, name, booking.title,
                                                 booking.startTime, Some(minutesBefore), show, transport);
      var attempt := Attempt(Reminder(bookingStudent.student.email, name, booking.title, booking.startTime, minutesBefore), result);
      assert attempt == planned[j];
      assert planned[..j + 1] == planned[..j] + [attempt];
      sent := sent + [attempt];
    }
    assert planned[..|booking.students|] == planned;
  }

  /**
   * One run of the per-minute job at time `now`, over the stored bookings:
   * read the lead time, match the window, and send every reminder.
   */
  method RunTick(now: int, file: SettingsFile, stored: seq<Booking>, show: real -> string,
                 transport: Email.Message -> Email.Delivery)
    returns (attempts: seq<Attempt>, emailCount: nat)
    ensures var m := LeadTime(Get(file));
            attempts == TickAttempts(Upcoming(stored, now, m), m, show, transport)
    ensures emailCount == |attempts| == EnrollmentCount(Upcoming(stored, now, LeadTime(Get(file))))
  {
    var settings := Get(file);
    var minutesBefore := LeadTime(settings);
    var startWindow := DateOf(now as real + minutesBefore * 60.0 * 1000.0);
    var endWindow := DateOf(now as real + (minutesBefore + 1.0) * 60.0 * 1000.0);
    var upcoming := Filter(stored, StartsBetween(startWindow, endWindow));
    assert upcoming == Upcoming(stored, now, minutesBefore);

    attempts := [];
    emailCount := 0;
    for i := 0 to |upcoming|
      invariant attempts == TickAttempts(upcoming[..i], minutesBefore, show, transport)
      invariant emailCount == |attempts|
    {
      var booking := upcoming[i];
      var sent := SendBookingReminders(booking, minutesBefore, show, transport);
      attempts := attempts + sent;
      emailCount := emailCount + |sent|;
      TickAttemptsAppend(upcoming[..i], booking, minutesBefore, show, transport);
      assert upcoming[..i + 1] == upcoming[..i] + [booking];
    }
    assert upcoming[..|upcoming|] == upcoming;
    AttemptsPerEnrollment(upcoming, minutesBefore, show, transport);
  }

  // ---------------------------------------------------------------------
  // Starting the scheduler
  // ---------------------------------------------------------------------

  /** The process-wide scheduler: whether it was started, and how many per-minute jobs are registered. */
  class EmailScheduler {
    var running: bool
    var cronJobs: nat

    ghost predicate Valid()
      reads this
    {
      running <==> cronJobs == 1
    }

    ghost predicate AtMostOneJob()
      reads this
    {
      cronJobs <= 1
    }

    constructor ()
      ensures Valid() && AtMostOneJob() && !running && cronJobs == 0
    {
      running := false;
      cronJobs := 0;
    }

    /** `startEmailScheduler`: register the per-minute job unless the scheduler is already running. */
    method Start()
      requires Valid() && AtMostOneJob()
      modifies this
      ensures Valid() && AtMostOneJob()
      ensures running && cronJobs == 1
      ensures old(running) ==> cronJobs == old(cronJobs)
    {
      if running {
        return;
      }
      cronJobs := cronJobs + 1;
      running := true;
    }
  }

  /** Starting the scheduler twice, as each mount of the initialiser does, leaves one registered job. */
  method StartTwice() returns (jobs: nat, running: bool)
    ensures jobs == 1 && running
  {
    var scheduler := new EmailScheduler();
    scheduler.Start();
    scheduler.Start();
    jobs := scheduler.cronJobs;
    running := scheduler.running;
  }
}
