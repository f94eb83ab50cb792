/**
 * The reminder lead-time setting: a JSON file holding `{ minutesBefore }`.
 * `/api/settings/email` reads and writes it; the scheduler and the test-email
 * route read it.
 */
module EmailSettings {
  import opened Wrappers

  /**
   * The settings file as a handler finds it. `Unreadable` is a file that
   * exists but cannot be read or parsed. In `Stored`, `None` is a
   * `minutesBefore` that is absent, null or not a number.
   */
  datatype SettingsFile = Missing | Unreadable | Stored(minutesBefore: Option<real>)

  /** The settings object `{ minutesBefore }`. */
  datatype Settings = Settings(minutesBefore: Option<real>)

  const DefaultMinutes: real := 2.0

  /** `GET /api/settings/email`: the stored object, or `{ minutesBefore: 2 }` when there is none or it cannot be read. */
  function Get(file: SettingsFile): (s: Settings)
    ensures file.Stored? ==> s.minutesBefore == file.minutesBefore
    ensures !file.Stored? ==> s.minutesBefore == Some(DefaultMinutes)
  {
    match file
    case Stored(m) => Settings(m)
    case _ => Settings(Some(DefaultMinutes))
  }

  /** JavaScript truthiness of a number that may be absent: zero is falsy. */
  predicate Truthy(m: Option<real>) {
    m.Some? && m.value != 0.0
  }

  /** `settings.minutesBefore || 2`: the lead time a reader of the settings goes by. */
  function LeadTime(s: Settings): (m: real)
    ensures m != 0.0
    ensures Truthy(s.minutesBefore) ==> m == s.minutesBefore.value
    ensures !Truthy(s.minutesBefore) ==> m == DefaultMinutes
  {
    if Truthy(s.minutesBefore) then s.minutesBefore.value else DefaultMinutes
  }

  /** A value the POST handler accepts: a number from 1 to 60 minutes. */
  predicate InRange(m: Option<real>) {
    m.Some? && 1.0 <= m.value <= 60.0
  }

  datatype PostResponse =
    | InvalidMinutes400            // `{ error: "Invalid minutes value" }`
    | Saved(settings: Settings)    // `{ success: true, settings }`
    | SaveFailed500                // the write threw

  /** The response and the settings file after the request. */
  datatype PostOutcome = PostOutcome(response: PostResponse, file: SettingsFile)

  /**
   * `POST /api/settings/email` with body field `minutesBefore`; `writeOk`
   * says whether writing the file succeeds.
   */
  function Post(minutesBefore: Option<real>, file: SettingsFile, writeOk: bool): (r: PostOutcome)
    ensures r.response.InvalidMinutes400? <==> !InRange(minutesBefore)
    ensures r.response.Saved? <==> InRange(minutesBefore) && writeOk
    ensures r.response.Saved? ==> r.response.settings.minutesBefore == minutesBefore
    ensures r.response.Saved? ==> r.file == Stored(minutesBefore)
    ensures !r.response.Saved? ==> r.file == file
  {
    if !Truthy(minutesBefore) || minutesBefore.value < 1.0 || minutesBefore.value > 60.0 then
      PostOutcome(InvalidMinutes400, file)
    else if !writeOk then
      PostOutcome(SaveFailed500, file)
    else
      var settings := Settings(minutesBefore);
      PostOutcome(Saved(settings), Stored(settings.minutesBefore))
  }

  /**
   * A saved value is what every later reader sees: GET echoes it, and the
   * lead time derived from it is that value, within 1 to 60 minutes.
   */
  lemma PostThenGet(minutesBefore: Option<real>, file: SettingsFile, writeOk: bool)
    requires Post(minutesBefore, file, writeOk).response.Saved?
    ensures Get(Post(minutesBefore, file, writeOk).file) == Post(minutesBefore, file, writeOk).response.settings
    ensures LeadTime(Get(Post(minutesBefore, file, writeOk).file)) == minutesBefore.value
    ensures 1.0 <= minutesBefore.value <= 60.0
  {
  }

  /** Without any saved value every reader falls back to two minutes. */
  lemma DefaultLeadTime(file: SettingsFile)
    requires !file.Stored? || !Truthy(file.minutesBefore)
    ensures LeadTime(Get(file)) == 2.0
  {
  }

  /** A rejected or failed POST leaves the lead time as it was. */
  lemma FailedPostKeepsLeadTime(minutesBefore: Option<real>, file: SettingsFile, writeOk: bool)
    requires !Post(minutesBefore, file, writeOk).response.Saved?
    ensures LeadTime(Get(Post(minutesBefore, file, writeOk).file)) == LeadTime(Get(file))
  {
  }
}
