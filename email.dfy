/**
 * The class reminder e-mail. The mail transport (connection check and send)
 * is a parameter: it either delivers a message and names its id, or fails.
 */
module Email {
  import opened Wrappers

  /** The parts of the reminder that vary; the HTML layout around them is fixed. */
  datatype Message = Message(
    to: string,
    subject: string,
    greetingName: string,  // "Hi <name>,"
    classTitle: string,
    startTime: int,
    timeText: string       // "your class is starting in <timeText>!"
  )

  datatype Delivery = Delivered(messageId: string) | TransportError(reason: string)

  /** `{ success: true, messageId }` or `{ success: false, error }`. */
  datatype SendResult = Success(messageId: string) | Failure(error: string)

  const DefaultMinutes: real := 2.0

  /** "1 minute" for one minute, otherwise the number (as `show` prints it) followed by " minutes". */
  function TimeText(minutesBefore: real, show: real -> string): (t: string)
    ensures minutesBefore == 1.0 ==> t == "1 minute"
    ensures minutesBefore != 1.0 ==> |t| >= 8 && t[|t| - 8..] == " minutes"
    ensures minutesBefore != 1.0 ==> t[..|t| - 8] == show(minutesBefore)
  {
    if minutesBefore == 1.0 then "1 minute" else show(minutesBefore) + " minutes"
  }

  const SubjectPrefix: string := "Reminder: Class starting in "

  function Subject(timeText: string, classTitle: string): (s: string)
    ensures SubjectPrefix <= s
    ensures |s| >= |classTitle| && s[|s| - |classTitle|..] == classTitle
  {
    SubjectPrefix + timeText + " - " + classTitle
  }

  /** The message the reminder hands to the transport. */
  function ReminderMessage(studentEmail: string, studentName: string, classTitle: string, startTime: int,
                           minutesBefore: Option<real>, show: real -> string): (m: Message)
    ensures m.to == studentEmail && m.greetingName == studentName
    ensures m.classTitle == classTitle && m.startTime == startTime
    ensures m.timeText == TimeText(minutesBefore.GetOr(DefaultMinutes), show)
    ensures m.subject == Subject(m.timeText, classTitle)
  {
    var timeText := TimeText(minutesBefore.GetOr(DefaultMinutes), show);
    Message(studentEmail, Subject(timeText, classTitle), studentName, classTitle, startTime, timeText)
  }

  /**
   * `sendClassReminderEmail`: never throws. It reports success with the
   * transport's message id, or failure with the transport's error.
   */
  function SendClassReminderEmail(studentEmail: string, studentName: string, classTitle: string, startTime: int,
                                  minutesBefore: Option<real>, show: real -> string,
                                  transport: Message -> Delivery): (r: SendResult)
    ensures var d := transport(ReminderMessage(studentEmail, studentName, classTitle, startTime, minutesBefore, show));
            (r.Success? <==> d.Delivered?) &&
            (r.Success? ==> r.messageId == d.messageId) &&
            (r.Failure? ==> r.error == d.reason)
  {
    match transport(ReminderMessage(studentEmail, studentName, classTitle, startTime, minutesBefore, show))
    case Delivered(id) => Success(id)
    case TransportError(e) => Failure(e)
  }

  /** Omitting the lead time is the same as passing two minutes. */
  lemma DefaultIsTwoMinutes(studentEmail: string, studentName: string, classTitle: string, startTime: int,
                            show: real -> string)
    ensures ReminderMessage(studentEmail, studentName, classTitle, startTime, None, show)
         == ReminderMessage(studentEmail, studentName, classTitle, startTime, Some(2.0), show)
  {
  }

  /** The subject reads back as the prefix, the time text, " - " and the title. */
  lemma SubjectNamesClass(timeText: string, classTitle: string)
    ensures Subject(timeText, classTitle)[..|SubjectPrefix|] == SubjectPrefix
    ensures Subject(timeText, classTitle)[|SubjectPrefix| + |timeText|..|SubjectPrefix| + |timeText| + 3] == " - "
    ensures Subject(timeText, classTitle)[|SubjectPrefix| + |timeText| + 3..] == classTitle
    ensures Subject(timeText, classTitle)[|SubjectPrefix|..|SubjectPrefix| + |timeText|] == timeText
  {
  }

  /** The singular form is used for exactly one minute. */
  lemma SingularOnlyForOne(minutesBefore: real, show: real -> string)
    ensures TimeText(minutesBefore, show) == "1 minute" <==> minutesBefore == 1.0
  {
    if minutesBefore != 1.0 {
      var t := TimeText(minutesBefore, show);
      assert t[|t| - 8..] == " minutes";
    }
  }
}
