/**
 * The student search page: a case-insensitive substring filter over names,
 * e-mail and phone, applied as the query text changes.
 */
module StudentSearch {
  import opened Wrappers
  import opened Domain
  import opened Seqs
  import opened Text

  /** A student matches a lower-cased, trimmed query through any of its searchable fields. */
  predicate MatchesStudent(s: Student, query: string) {
    var first := Lower(s.firstName);
    var last := Lower(s.lastName);
    || Includes(first, query)
    || Includes(last, query)
    || Includes(first + " " + last, query)
    || Includes(Lower(s.email), query)
    || Includes(Lower(s.phone.GetOr("")), query)
  }

  function Matching(query: string): Student -> bool {
    s => MatchesStudent(s, query)
  }

  /** The filtered list the page shows for the loaded students and the query text. */
  function Search(students: seq<Student>, searchQuery: string): (r: seq<Student>)
    ensures Trim(searchQuery) == [] ==> r == students
    ensures IsSubsequence(r, students)
  {
    if Trim(searchQuery) == [] then
      SubsequenceReflexive(students);
      students
    else
      FilterIsSubsequence(students, Matching(Trim(Lower(searchQuery))));
      Filter(students, Matching(Trim(Lower(searchQuery))))
  }

  /** For a non-blank query, the shown students are exactly the loaded ones that match it lower-cased and trimmed. */
  lemma SearchMembership(students: seq<Student>, searchQuery: string, s: Student)
    requires Trim(searchQuery) != []
    ensures s in Search(students, searchQuery) <==> s in students && MatchesStudent(s, Trim(Lower(searchQuery)))
  {
    FilterMembership(students, Matching(Trim(Lower(searchQuery))), s);
  }

  /** Lower-casing neither creates nor removes whitespace. */
  lemma LowerKeepsWhitespace(q: string)
    ensures forall i :: 0 <= i < |q| ==> (IsJsWhitespace(Lower(q)[i]) <==> IsJsWhitespace(q[i]))
  {
  }

  /** Queries that differ only in letter case show the same students. */
  lemma CaseInsensitive(students: seq<Student>, q1: string, q2: string)
    requires Lower(q1) == Lower(q2)
    ensures Search(students, q1) == Search(students, q2)
  {
    TrimEmptyIff(q1);
    TrimEmptyIff(q2);
    LowerKeepsWhitespace(q1);
    LowerKeepsWhitespace(q2);
    assert (forall i :: 0 <= i < |q1| ==> IsJsWhitespace(q1[i])) <==> (forall i :: 0 <= i < |q2| ==> IsJsWhitespace(q2[i]));
  }

  /** A string contains its own trimmed form. */
  lemma TrimIncluded(e: string)
    ensures Includes(e, Trim(e))
  {
    var i, j :| 0 <= i <= j <= |e| && Trim(e) == e[i..j];
    assert OccursAt(e, Trim(e), i);
    OccurrenceIncluded(e, Trim(e), i);
  }

  /** Searching for a student's own e-mail address (in any letter case) finds that student. */
  lemma FindsOwnEmail(students: seq<Student>, s: Student)
    requires s in students
    requires Trim(s.email) != []
    ensures s in Search(students, s.email)
  {
    TrimIncluded(Lower(s.email));
    assert MatchesStudent(s, Trim(Lower(s.email)));
    SearchMembership(students, s.email, s);
  }
}

/**
 * The payment search page: a case-insensitive substring filter over the
 * paying student, the amount and the notes, and the plain currency display.
 */
module PaymentSearch {
  import opened Wrappers
  import opened Domain
  import opened Seqs
  import opened Text
  import Ledger

  /**
   * A payment matches a lower-cased query through the student's names or
   * e-mail, the amount as `show` prints it, or non-empty notes.
   */
  predicate MatchesPayment(p: Payment, query: string, show: real -> string) {
    || Includes(Lower(p.student.firstName), query)
    || Includes(Lower(p.student.lastName), query)
    || Includes(Lower(p.student.email), query)
    || Includes(show(p.amount), query)
    || (p.notes.Some? && p.notes.value != [] && Includes(Lower(p.notes.value), query))
  }

  function Matching(query: string, show: real -> string): Payment -> bool {
    p => MatchesPayment(p, query, show)
  }

  /** The filtered list the page shows; the query is lower-cased but, unlike the student search, not trimmed. */
  function Search(payments: seq<Payment>, searchQuery: string, show: real -> string): (r: seq<Payment>)
    ensures Trim(searchQuery) == [] ==> r == payments
    ensures IsSubsequence(r, payments)
  {
    if Trim(searchQuery) == [] then
      SubsequenceReflexive(payments);
      payments
    else
      FilterIsSubsequence(payments, Matching(Lower(searchQuery), show));
      Filter(payments, Matching(Lower(searchQuery), show))
  }

  /** For a non-blank query, the shown payments are exactly the loaded ones matching the lower-cased, untrimmed query. */
  lemma SearchMembership(payments: seq<Payment>, searchQuery: string, show: real -> string, p: Payment)
    requires Trim(searchQuery) != []
    ensures p in Search(payments, searchQuery, show) <==> p in payments && MatchesPayment(p, Lower(searchQuery), show)
  {
    FilterMembership(payments, Matching(Lower(searchQuery), show), p);
  }

  /** A payment without notes is never found through its notes: only the other fields can match it. */
  lemma MissingNotesNeverMatch(p: Payment, query: string, show: real -> string)
    requires p.notes.None?
    requires !Includes(Lower(p.student.firstName), query) && !Includes(Lower(p.student.lastName), query)
    requires !Includes(Lower(p.student.email), query) && !Includes(show(p.amount), query)
    ensures !MatchesPayment(p, query, show)
  {
  }

  /** `${Math.round(amount)} kr`: the rounded amount with its own sign, no flip. */
  function FormatCurrency(amount: real): (s: string)
    ensures |s| >= 4 && s[|s| - 3..] == " kr"
    ensures s[0] == '-' <==> Ledger.JsRound(amount) < 0
  {
    IntToString(Ledger.JsRound(amount)) + " kr"
  }

  /** Two amounts display alike exactly when they round alike. */
  lemma FormatCurrencyFaithful(a: real, b: real)
    ensures FormatCurrency(a) == FormatCurrency(b) <==> Ledger.JsRound(a) == Ledger.JsRound(b)
  {
    if FormatCurrency(a) == FormatCurrency(b) {
      var sa := IntToString(Ledger.JsRound(a));
      var sb := IntToString(Ledger.JsRound(b));
      assert FormatCurrency(a)[..|sa|] == sa;
      assert |sa| == |sb|;
      assert FormatCurrency(b)[..|sb|] == sb;
      IntToStringInjective(Ledger.JsRound(a), Ledger.JsRound(b));
    }
  }

  /** Reads a display of this page back: an optional '-', decimal digits, then " kr". */
  function ReadAmount(s: string): Option<int> {
    if |s| < 4 || s[|s| - 3..] != " kr" then None
    else
      var body := s[..|s| - 3];
      if body[0] == '-' && |body| > 1 && AllDigits(body[1..]) then Some(0 - ParseDigits(body[1..]))
      else if AllDigits(body) then Some(ParseDigits(body))
      else None
  }

  /** The display can be read back: its digits are the size of the rounded amount, led by '-' when it is negative. */
  lemma FormatCurrencyReadBack(amount: real)
    ensures ReadAmount(FormatCurrency(amount)) == Some(Ledger.JsRound(amount))
  {
    var r := Ledger.JsRound(amount);
    var s := FormatCurrency(amount);
    assert s[|s| - 3..] == " kr";
    if r < 0 {
      var digits := NatToString(-r);
      assert s == ['-'] + digits + " kr";
      assert s[..|s| - 3] == ['-'] + digits;
      assert (['-'] + digits)[1..] == digits;
      ParseNatToString(-r);
    } else {
      var digits := NatToString(r);
      assert s == digits + " kr";
      assert s[..|s| - 3] == digits;
      ParseNatToString(r);
    }
  }

  /** The two payment displays disagree in sign: a balance of 150 reads "-150 kr" in the ledger and "150 kr" here. */
  lemma DisplaysDiffer()
    ensures FormatCurrency(150.0) == "150 kr"
    ensures Ledger.FormatCurrency(150.0) == "-150 kr"
  {
    Ledger.FormatCurrencyExamples();
    assert Ledger.JsRound(150.0) == 150;
    assert NatToString(150) == NatToString(15) + [DigitChar(0)];
    assert NatToString(15) == NatToString(1) + [DigitChar(5)];
  }
}
