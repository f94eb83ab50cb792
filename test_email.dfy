/**
 * `GET /api/test-email`: a diagnostic report of the reminder window at the
 * current time, listing every booking and the ones the window matches.
 */
module TestEmail {
  import opened Wrappers
  import opened Domain
  import opened Seqs
  import opened EmailSettings
  import Scheduler

  datatype StudentView = StudentView(name: string, email: string)
  datatype BookingView = BookingView(id: int, title: string, startTime: int, students: seq<StudentView>)

  datatype Report = Report(
    now: int,
    minutesBefore: real,
    startWindow: int,
    endWindow: int,
    totalBookings: nat,
    allBookings: seq<BookingView>,
    upcomingBookings: seq<BookingView>
  )

  /** The report, or status 500 when reading the settings throws. */
  datatype Response = Ok(report: Report) | ServerError500

  function ViewStartOf(v: BookingView): int {
    v.startTime
  }

  function StudentViewOf(e: Enrollment): StudentView {
    StudentView(e.student.firstName + " " + e.student.lastName, e.student.email)
  }

  function ViewOf(b: Booking): (v: BookingView)
    ensures v.id == b.id && v.startTime == b.startTime && |v.students| == |b.students|
  {
    BookingView(b.id, b.title, b.startTime, Map(b.students, StudentViewOf))
  }

  /**
   * The lead time as this route reads it: 2 without a file, `minutesBefore || 2`
   * from a parsed file, nothing when the file cannot be read (the route throws).
   */
  function ReadLeadTime(file: SettingsFile): (m: Option<real>)
    ensures m.None? <==> file.Unreadable?
    ensures m.Some? ==> m.value == LeadTime(Get(file))
  {
    match file
    case Missing => Some(2.0)
    case Unreadable => None
    case Stored(minutesBefore) => Some(if Truthy(minutesBefore) then minutesBefore.value else 2.0)
  }

  /** The route's window test, `startWindow <= b.startTime < endWindow`, applied to a listed booking. */
  function ViewStartsBetween(startWindow: int, endWindow: int): BookingView -> bool {
    (v: BookingView) => startWindow <= v.startTime < endWindow
  }

  /** The listed views of the bookings sorted by start are the views of the stored bookings, sorted. */
  lemma SortedViews(stored: seq<Booking>)
    ensures Map(SortBy(stored, StartOf), ViewOf) == SortBy(Map(stored, ViewOf), ViewStartOf)
  {
    MapSortBy(stored, StartOf, ViewOf, ViewStartOf);
  }

  /** The views of the bookings in the window are the listed views in the window, in the same order. */
  lemma UpcomingViews(all: seq<Booking>, startWindow: int, endWindow: int)
    ensures Map(Filter(all, Scheduler.StartsBetween(startWindow, endWindow)), ViewOf)
         == Filter(Map(all, ViewOf), ViewStartsBetween(startWindow, endWindow))
  {
    MapFilter(all, Scheduler.StartsBetween(startWindow, endWindow), ViewOf,
              ViewStartsBetween(startWindow, endWindow));
  }

  /** A listed view passes the window filter exactly when its start lies in the window. */
  lemma InWindowViews(views: seq<BookingView>, startWindow: int, endWindow: int)
    ensures forall v :: v in Filter(views, ViewStartsBetween(startWindow, endWindow))
                        <==> v in views && startWindow <= v.startTime < endWindow
  {
    forall v ensures v in Filter(views, ViewStartsBetween(startWindow, endWindow))
                     <==> v in views && startWindow <= v.startTime < endWindow {
      FilterMembership(views, ViewStartsBetween(startWindow, endWindow), v);
    }
  }

  /** The route on the stored bookings at time `now`. */
  function TestEmailReport(now: int, file: SettingsFile, stored: seq<Booking>): (r: Response)
    ensures r.ServerError500? <==> file.Unreadable?
    ensures r.Ok? ==> r.report.now == now && r.report.minutesBefore == LeadTime(Get(file))
    ensures r.Ok? ==> r.report.startWindow == Scheduler.WindowStart(now, r.report.minutesBefore)
    ensures r.Ok? ==> r.report.endWindow == Scheduler.WindowEnd(now, r.report.minutesBefore)
    ensures r.Ok? ==> r.report.totalBookings == |stored| == |r.report.allBookings|
    ensures r.Ok? ==> r.report.allBookings == SortBy(Map(stored, ViewOf), ViewStartOf)
    ensures r.Ok? ==> SortedBy(r.report.allBookings, ViewStartOf)
    ensures r.Ok? ==> multiset(r.report.allBookings) == multiset(Map(stored, ViewOf))
    ensures r.Ok? ==> r.report.upcomingBookings
                      == Filter(r.report.allBookings, ViewStartsBetween(r.report.startWindow, r.report.endWindow))
    ensures r.Ok? ==> forall v :: v in r.report.upcomingBookings <==>
                        v in r.report.allBookings && r.report.startWindow <= v.startTime < r.report.endWindow
  {
    match ReadLeadTime(file)
    case None => ServerError500
    case Some(minutesBefore) =>
      var allBookings := SortBy(stored, StartOf);
      var startWindow := Scheduler.DateOf(now as real + minutesBefore * 60.0 * 1000.0);
      var endWindow := Scheduler.DateOf(now as real + (minutesBefore + 1.0) * 60.0 * 1000.0);
      var upcoming := Filter(allBookings, Scheduler.StartsBetween(startWindow, endWindow));
      SortedViews(stored);
      UpcomingViews(allBookings, startWindow, endWindow);
      InWindowViews(Map(allBookings, ViewOf), startWindow, endWindow);
      Ok(Report(now, minutesBefore, startWindow, endWindow, |allBookings|,
                Map(allBookings, ViewOf), Map(upcoming, ViewOf)))
  }

  /** The upcoming list is drawn, in order, from the full list, and is itself ordered by start time. */
  lemma UpcomingDrawnFromAll(now: int, file: SettingsFile, stored: seq<Booking>)
    requires !file.Unreadable?
    ensures var rep := TestEmailReport(now, file, stored).report;
            IsSubsequence(rep.upcomingBookings, rep.allBookings) && SortedBy(rep.upcomingBookings, ViewStartOf)
  {
    var rep := TestEmailReport(now, file, stored).report;
    var q := ViewStartsBetween(rep.startWindow, rep.endWindow);
    FilterIsSubsequence(rep.allBookings, q);
    FilterKeepsSorted(rep.allBookings, q, ViewStartOf);
  }

  /** How many times `v` survives a filter: all of its occurrences when it passes, none otherwise. */
  lemma {:induction false} FilterCount(s: seq<BookingView>, q: BookingView -> bool, v: BookingView)
    ensures multiset(Filter(s, q))[v] == if q(v) then multiset(s)[v] else 0
  {
    if s != [] {
      FilterCount(s[1..], q, v);
      assert s == [s[0]] + s[1..];
    }
  }

  /** Filtering two permutations of each other gives permutations of each other. */
  lemma FilterKeepsPermutation(a: seq<BookingView>, b: seq<BookingView>, q: BookingView -> bool)
    requires multiset(a) == multiset(b)
    ensures multiset(Filter(a, q)) == multiset(Filter(b, q))
  {
    forall v ensures multiset(Filter(a, q))[v] == multiset(Filter(b, q))[v] {
      FilterCount(a, q, v);
      FilterCount(b, q, v);
    }
  }

  /**
   * For a readable settings file the report's upcoming list holds exactly the
   * bookings a scheduler run at the same time sends reminders for, each as
   * often (only the order may differ).
   */
  lemma ReportAgreesWithScheduler(now: int, file: SettingsFile, stored: seq<Booking>)
    requires !file.Unreadable?
    ensures var m := LeadTime(Get(file));
            multiset(TestEmailReport(now, file, stored).report.upcomingBookings)
            == multiset(Map(Scheduler.Upcoming(stored, now, m), ViewOf))
  {
    var rep := TestEmailReport(now, file, stored).report;
    var m := LeadTime(Get(file));
    var p := Scheduler.StartsBetween(rep.startWindow, rep.endWindow);
    var q := ViewStartsBetween(rep.startWindow, rep.endWindow);
    MapFilter(stored, p, ViewOf, q);
    FilterKeepsPermutation(rep.allBookings, Map(stored, ViewOf), q);
  }
}
