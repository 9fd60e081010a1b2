/** What a caller of the sender can conclude from its contracts alone: three small campaigns and one rejected table. */
module Scenarios {
  import opened Wrappers
  import opened Quota
  import opened Recipients
  import opened SendLoop
  import opened Mailer

  /** Two recipients with 498 already sent today: both are sent and the quota is used up. */
  method FillsTheQuota() {
    var today := "2026-10-15";
    var sender := new EmailSender(Saved(today, 498), today);
    var t := Table(["name", "email"], [Row("Ann", "a@x.com"), Row("Bo", "b@x.com")]);
    var loaded, error := sender.LoadCsv("people.csv", Success(t));
    assert error == None;
    assert sender.df == Some(t) && !IsEmpty(t) && sender.sentToday == 498;
    PlannedCompletes(Content("", "", ""), t.rows, 498, [Ok, Ok], 2);
    var report, dialled, attempted, progress := sender.SendEmails(today, Ok, [Ok, Ok], Ok, true);
    assert sender.sentToday == 500;
    assert report == Summary(2, 0);
    assert LoadEmailCount(sender.quotaFile, today) == 500;
  }

  /** The quota already used up: no session is opened and nothing is sent. */
  method QuotaAlreadyUsed() {
    var today := "2026-10-15";
    var sender := new EmailSender(Saved(today, 500), today);
    var t := Table(["email", "name"], [Row("Ann", "a@x.com")]);
    var loaded, error := sender.LoadCsv("people.csv", Success(t));
    var report, dialled, attempted, progress := sender.SendEmails(today, Ok, [Ok], Ok, true);
    assert report == Failed(LimitMessage) && !dialled && attempted == [];
    assert sender.quotaFile == Saved(today, 500);
  }

  /** The second of three transmits raises: the third row is never tried and the first send is not counted. */
  method FailureMidway() {
    var today := "2026-10-15";
    var sender := new EmailSender(Missing, today);
    assert sender.sentToday == 0;
    var t := Table(["email", "name"], [Row("Ann", "a@x.com"), Row("Bo", "b@x.com"), Row("Cy", "c@x.com")]);
    var loaded, error := sender.LoadCsv("people.csv", Success(t));
    var transmits := [Ok, Raised("recipient refused"), Ok];
    assert sender.df == Some(t) && !IsEmpty(t);
    PlannedStops(Content("", "", ""), t.rows, 0, transmits, 1);
    var report, dialled, attempted, progress := sender.SendEmails(today, Ok, transmits, Ok, true);
    assert report == Failed("recipient refused");
    assert |attempted| == 2 && progress == [SentTo("a@x.com")];
    assert sender.sentToday == 0 && sender.quotaFile == Missing;
  }

  /** A table without a `name` column is refused and the previous table stays. */
  method MissingColumn() {
    var sender := new EmailSender(Missing, "2026-10-15");
    var good := Table(["email", "name"], [Row("Ann", "a@x.com")]);
    var loaded, error := sender.LoadCsv("people.csv", Success(good));
    var bad := Table(["email"], []);
    loaded, error := sender.LoadCsv("other.csv", Success(bad));
    assert error == Some(MissingColumnsMessage);
    assert sender.df == Some(good) && sender.csvFile == Some("people.csv");
  }
}
