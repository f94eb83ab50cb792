/**
 * The students page shows each student's balance with a copy of the payments
 * page's ledger code. The copy is modelled by the one ledger and carries the
 * same guarantees.
 */
module StudentsPage {
  import opened Wrappers
  import opened Domain
  import Ledger

  /** `getTotalOwed` on the students page: the same balance as on the payments page. */
  method GetTotalOwed(students: seq<Student>, bookings: seq<Booking>, payments: seq<Payment>, studentId: int)
    returns (balance: real)
    ensures balance == Ledger.Balance(students, bookings, payments, studentId)
    ensures (forall i :: 0 <= i < |students| ==> students[i].id != studentId) ==> balance == 0.0
  {
    balance := Ledger.GetTotalOwed(students, bookings, payments, studentId);
  }

  /** `formatCurrency` on the students page: the same sign-flipped display. */
  function FormatCurrency(amount: real): (s: string)
    ensures |s| >= 4 && s[|s| - 3..] == " kr"
    ensures s[0] == '-' <==> Ledger.JsRound(amount) > 0
    ensures s[0] == '+' <==> Ledger.JsRound(amount) < 0
    ensures s == "0 kr" <==> Ledger.JsRound(amount) == 0
  {
    Ledger.FormatCurrency(amount)
  }

  /** Both pages show the same text for the same balance. */
  lemma PagesAgreeOnDisplay(amount: real)
    ensures FormatCurrency(amount) == Ledger.FormatCurrency(amount)
    ensures Ledger.ReadDisplayed(FormatCurrency(amount)) == Some(Ledger.JsRound(amount))
  {
    Ledger.FormatCurrencyReadBack(amount);
  }
}
