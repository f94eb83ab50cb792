/**
 * The payments page's ledger: how many 45-minute lessons a student attended,
 * what they owe for them at their private or group rate, what they paid, and
 * how the resulting balance is displayed.
 */
module Ledger {
  import opened Wrappers
  import opened Domain
  import opened Text
  import opened Seqs

  // ---------------------------------------------------------------------
  // Specification
  // ---------------------------------------------------------------------

  /** Some enrollment in `es` is the student's and is marked attended. */
  predicate Attended(es: seq<Enrollment>, studentId: int) {
    exists i :: 0 <= i < |es| && es[i].studentId == studentId && es[i].attended
  }

  /** Billable 45-minute lessons in one booking; fractional lessons count. */
  function LessonUnits(b: Booking): (u: real)
    ensures u * 45.0 * MsPerMinute as real == (b.endTime - b.startTime) as real
  {
    (b.endTime - b.startTime) as real / MsPerMinute as real / 45.0
  }

  /** What one booking adds to a student's lesson count: all of it or nothing. */
  function LessonsIn(b: Booking, studentId: int): real {
    if Attended(b.students, studentId) then LessonUnits(b) else 0.0
  }

  function TotalLessons(bookings: seq<Booking>, studentId: int): (r: real)
    ensures (forall i :: 0 <= i < |bookings| ==> !Attended(bookings[i].students, studentId)) ==> r == 0.0
    ensures (forall i :: 0 <= i < |bookings| ==> bookings[i].startTime <= bookings[i].endTime) ==> r >= 0.0
  {
    if bookings == [] then 0.0
    else LessonsIn(bookings[0], studentId) + TotalLessons(bookings[1..], studentId)
  }

  /** A booking with more than one enrolled student (attending or not) is a group lesson. */
  function RateFor(b: Booking, s: Student): real {
    if |b.students| > 1 then s.groupRate else s.privateRate
  }

  function ChargeIn(b: Booking, s: Student): real {
    if Attended(b.students, s.id) then LessonUnits(b) * RateFor(b, s) else 0.0
  }

  function TotalOwed(bookings: seq<Booking>, s: Student): (r: real)
    ensures (forall i :: 0 <= i < |bookings| ==> !Attended(bookings[i].students, s.id)) ==> r == 0.0
  {
    if bookings == [] then 0.0
    else ChargeIn(bookings[0], s) + TotalOwed(bookings[1..], s)
  }

  function SumAmounts(payments: seq<Payment>): real {
    if payments == [] then 0.0 else payments[0].amount + SumAmounts(payments[1..])
  }

  /** The filter `p => p.studentId === studentId`. */
  function PaidBy(studentId: int): Payment -> bool {
    (p: Payment) => p.studentId == studentId
  }

  /** `payments.filter(p => p.studentId === studentId).reduce((sum, p) => sum + p.amount, 0)` */
  function TotalPaid(payments: seq<Payment>, studentId: int): real {
    SumAmounts(Filter(payments, PaidBy(studentId)))
  }

  /** `students.find(s => s.id === id)`: the first student with that id. */
  function FindStudent(students: seq<Student>, studentId: int): (r: Option<Student>)
    ensures r.None? <==> forall i :: 0 <= i < |students| ==> students[i].id != studentId
    ensures r.Some? ==> r.value in students && r.value.id == studentId
  {
    if students == [] then None
    else if students[0].id == studentId then Some(students[0])
    else FindStudent(students[1..], studentId)
  }

  /** Owed minus paid; an unknown student's balance is 0 whatever they paid. */
  function Balance(students: seq<Student>, bookings: seq<Booking>, payments: seq<Payment>, studentId: int): real {
    match FindStudent(students, studentId)
    case None => 0.0
    case Some(s) => TotalOwed(bookings, s) - TotalPaid(payments, studentId)
  }

  // ---------------------------------------------------------------------
  // The page's code
  // ---------------------------------------------------------------------

  /** `booking.students.find(bs => bs.studentId === studentId && bs.attended)` */
  function FindAttended(es: seq<Enrollment>, studentId: int): (r: Option<Enrollment>)
    ensures r.Some? <==> Attended(es, studentId)
    ensures r.Some? ==> r.value in es && r.value.studentId == studentId && r.value.attended
  {
    if es == [] then None
    else if es[0].studentId == studentId && es[0].attended then Some(es[0])
    else
      var r := FindAttended(es[1..], studentId);
      assert Attended(es[1..], studentId) ==> Attended(es, studentId);
      assert Attended(es, studentId) ==> Attended(es[1..], studentId) by {
        if Attended(es, studentId) {
          var i :| 0 <= i < |es| && es[i].studentId == studentId && es[i].attended;
          assert i > 0 && es[1..][i - 1] == es[i];
        }
      }
      r
  }

  /** `getTotalLessons`: accumulates the lessons of every booking the student attended. */
  method GetTotalLessons(bookings: seq<Booking>, studentId: int) returns (totalLessons: real)
    ensures totalLessons == TotalLessons(bookings, studentId)
  {
    totalLessons := 0.0;
    for i := 0 to |bookings|
      invariant totalLessons == TotalLessons(bookings[..i], studentId)
    {
      var booking := bookings[i];
      var studentBooking := FindAttended(booking.students, studentId);
      if studentBooking.Some? {
        var minutes := (booking.endTime - booking.startTime) as real / (1000 * 60) as real;
        var lessons := minutes / 45.0;
        assert lessons == LessonUnits(booking);
        totalLessons := totalLessons + lessons;
      }
      assert totalLessons == TotalLessons(bookings[..i], studentId) + LessonsIn(booking, studentId);
      assert TotalLessons([booking], studentId) == LessonsIn(booking, studentId);
      assert bookings[..i + 1] == bookings[..i] + [booking];
      TotalLessonsAppend(bookings[..i], [booking], studentId);
    }
    assert bookings[..|bookings|] == bookings;
  }

  /** `getTotalOwed`: the student's balance, 0 for a student who is not listed. */
  method GetTotalOwed(students: seq<Student>, bookings: seq<Booking>, payments: seq<Payment>, studentId: int)
    returns (balance: real)
    ensures balance == Balance(students, bookings, payments, studentId)
    ensures (forall i :: 0 <= i < |students| ==> students[i].id != studentId) ==> balance == 0.0
  {
    var student := FindStudent(students, studentId);
    if student.None? {
      return 0.0;
    }
    var s := student.value;
    var totalOwed := 0.0;
    for i := 0 to |bookings|
      invariant totalOwed == TotalOwed(bookings[..i], s)
    {
      var booking := bookings[i];
      var studentBooking := FindAttended(booking.students, studentId);
      if studentBooking.Some? {
        var minutes := (booking.endTime - booking.startTime) as real / (1000 * 60) as real;
        var lessons := minutes / 45.0;
        var isGroupLesson := |booking.students| > 1;
        var rate := if isGroupLesson then s.groupRate else s.privateRate;
        assert lessons == LessonUnits(booking) && rate == RateFor(booking, s);
        totalOwed := totalOwed + lessons * rate;
      }
      assert totalOwed == TotalOwed(bookings[..i], s) + ChargeIn(booking, s);
      assert TotalOwed([booking], s) == ChargeIn(booking, s);
      assert bookings[..i + 1] == bookings[..i] + [booking];
      TotalOwedAppend(bookings[..i], [booking], s);
    }
    assert bookings[..|bookings|] == bookings;
    var totalPaid := TotalPaid(payments, studentId);
    balance := totalOwed - totalPaid;
  }

  /** Math.round: the nearest integer, halves rounded up (towards +infinity). */
  function JsRound(x: real): (r: int)
    ensures r as real - 0.5 <= x < r as real + 0.5
  {
    (x + 0.5).Floor
  }

  /**
   * `formatCurrency`: a debt (positive balance) is shown with a minus sign,
   * a credit (negative balance) with a plus sign, a settled account as `0 kr`.
   */
  function FormatCurrency(amount: real): (s: string)
    ensures |s| >= 4 && s[|s| - 3..] == " kr"
    ensures s[0] == '-' <==> JsRound(amount) > 0
    ensures s[0] == '+' <==> JsRound(amount) < 0
    ensures s == "0 kr" <==> JsRound(amount) == 0
  {
    var rounded := JsRound(amount);
    if rounded > 0 then "-" + IntToString(rounded) + " kr"
    else if rounded < 0 then "+" + IntToString(-rounded) + " kr"
    else IntToString(rounded) + " kr"
  }

  /** How a reader of the page interprets a displayed amount: `-N kr` owes N, `+N kr` is owed N. */
  function ReadDisplayed(s: string): Option<int> {
    if |s| < 4 || s[|s| - 3..] != " kr" then None
    else
      var body := s[..|s| - 3];
      if body[0] == '-' && |body| > 1 && AllDigits(body[1..]) then Some(ParseDigits(body[1..]))
      else if body[0] == '+' && |body| > 1 && AllDigits(body[1..]) then Some(0 - ParseDigits(body[1..]))
      else if AllDigits(body) then Some(ParseDigits(body))
      else None
  }

  // ---------------------------------------------------------------------
  // Properties
  // ---------------------------------------------------------------------

  lemma {:induction false} TotalLessonsAppend(a: seq<Booking>, b: seq<Booking>, studentId: int)
    ensures TotalLessons(a + b, studentId) == TotalLessons(a, studentId) + TotalLessons(b, studentId)
  {
    if a == [] {
      assert a + b == b;
    } else {
      assert (a + b)[1..] == a[1..] + b;
      TotalLessonsAppend(a[1..], b, studentId);
    }
  }

  lemma {:induction false} TotalOwedAppend(a: seq<Booking>, b: seq<Booking>, s: Student)
    ensures TotalOwed(a + b, s) == TotalOwed(a, s) + TotalOwed(b, s)
  {
    if a == [] {
      assert a + b == b;
    } else {
      assert (a + b)[1..] == a[1..] + b;
      TotalOwedAppend(a[1..], b, s);
    }
  }

  /** A second attended enrollment of the same student in a booking does not bill the booking twice. */
  lemma DuplicateEnrollmentBilledOnce(b: Booking, e: Enrollment, s: Student)
    requires Attended(b.students, s.id) && e.studentId == s.id && e.attended
    ensures ChargeIn(b.(students := b.students + [e]), s) == LessonUnits(b) * RateFor(b.(students := b.students + [e]), s)
    ensures LessonsIn(b.(students := b.students + [e]), s.id) == LessonsIn(b, s.id)
  {
    var i :| 0 <= i < |b.students| && b.students[i].studentId == s.id && b.students[i].attended;
    assert (b.students + [e])[i] == b.students[i];
  }

  /** Payments recorded for other students never change a student's total paid. */
  lemma ForeignPaymentIgnored(payments: seq<Payment>, k: nat, p: Payment, studentId: int)
    requires k <= |payments| && p.studentId != studentId
    ensures TotalPaid(payments[..k] + [p] + payments[k..], studentId) == TotalPaid(payments, studentId)
  {
    var mine := PaidBy(studentId);
    var before, after := payments[..k], payments[k..];
    FilterAppend(before + [p], after, mine);
    FilterAppend(before, [p], mine);
    FilterAppend(before, after, mine);
    assert Filter([p], mine) == [] by {
      assert [p][1..] == [];
    }
    assert before + after == payments;
    calc {
      Filter(before + [p] + after, mine);
      Filter(before, mine) + Filter([p], mine) + Filter(after, mine);
      Filter(before, mine) + Filter(after, mine);
      Filter(payments, mine);
    }
  }

  /** A private 45-minute lesson, attended and unpaid, leaves a balance of exactly the private rate. */
  lemma PrivateLessonBalance(s: Student, b: Booking, e: Enrollment)
    requires b.endTime - b.startTime == 45 * MsPerMinute
    requires b.students == [e] && e.studentId == s.id && e.attended
    ensures Balance([s], [b], [], s.id) == s.privateRate
  {
    assert Attended(b.students, s.id) by {
      assert b.students[0] == e;
    }
    assert LessonUnits(b) == 1.0;
  }

  /** In a 90-minute group lesson every attending student owes two lessons at their group rate. */
  lemma GroupLessonCharge(s: Student, b: Booking, i: nat)
    requires b.endTime - b.startTime == 90 * MsPerMinute && |b.students| >= 2
    requires i < |b.students| && b.students[i].studentId == s.id && b.students[i].attended
    ensures TotalOwed([b], s) == 2.0 * s.groupRate
  {
    assert LessonUnits(b) == 2.0;
  }

  /** Reading back a sign followed by digits and the currency suffix. */
  lemma ReadSigned(sign: char, digits: string)
    requires sign == '-' || sign == '+'
    requires digits != [] && AllDigits(digits)
    ensures ReadDisplayed([sign] + digits + " kr")
         == Some(if sign == '-' then ParseDigits(digits) else 0 - ParseDigits(digits))
  {
    var s := [sign] + digits + " kr";
    assert s[|s| - 3..] == " kr";
    assert s[..|s| - 3] == [sign] + digits;
    assert ([sign] + digits)[1..] == digits;
  }

  /** The display can be read back: it shows the rounded balance, with the page's sign convention. */
  lemma FormatCurrencyReadBack(amount: real)
    ensures ReadDisplayed(FormatCurrency(amount)) == Some(JsRound(amount))
  {
    var r := JsRound(amount);
    if r > 0 {
      assert IntToString(r) == NatToString(r);
      assert FormatCurrency(amount) == ['-'] + NatToString(r) + " kr";
      ReadSigned('-', NatToString(r));
      ParseNatToString(r);
    } else if r < 0 {
      assert IntToString(-r) == NatToString(-r);
      assert FormatCurrency(amount) == ['+'] + NatToString(-r) + " kr";
      ReadSigned('+', NatToString(-r));
      ParseNatToString(-r);
    } else {
      assert FormatCurrency(amount) == "0 kr";
      assert ReadDisplayed("0 kr") == Some(0) by {
        assert "0 kr"[..1] == "0";
        assert ParseDigits("0") == 0;
      }
    }
  }

  /** The examples of the display convention: 150.4 owes 150, -20 is a credit of 20, 0 is settled. */
  lemma FormatCurrencyExamples()
    ensures FormatCurrency(150.4) == "-150 kr"
    ensures FormatCurrency(-20.0) == "+20 kr"
    ensures FormatCurrency(0.0) == "0 kr"
    ensures FormatCurrency(-0.5) == "0 kr" && FormatCurrency(0.5) == "-1 kr"
  {
    assert JsRound(150.4) == 150;
    assert NatToString(150) == "150" by {
      assert NatToString(15) == "15";
    }
    assert JsRound(-20.0) == -20;
    assert JsRound(-0.5) == 0;
    assert JsRound(0.5) == 1;
  }
}
