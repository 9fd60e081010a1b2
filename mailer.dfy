/**
 * The batch sender: sender credentials, message content, the loaded
 * recipient table and the quota count, updated in place by the wizard and
 * by a campaign.
 */
module Mailer {
  import opened Wrappers
  import opened Quota
  import opened Recipients
  import opened SendLoop

  const MissingColumnsMessage: string := "CSV must contain 'email' and 'name' columns."
  const NotLoadedMessage: string := "CSV file is empty or not loaded."
  const LimitMessage: string := "Daily email limit of 500 reached! Try again tomorrow."

  /** What a campaign reports: how many were sent and how much quota is left, or the error. */
  datatype Report = Summary(sent: nat, remaining: int) | Failed(message: string)

  class EmailSender {
    var senderEmail: string
    var senderPassword: string
    var emailSubject: string
    var emailBody: string
    var csvFile: Option<string>
    var df: Option<Table>
    var sentToday: int
    /** The quota file; it outlives the sender, which reads it once and rewrites it after a campaign. */
    var quotaFile: QuotaFile

    /**
     * A table is held only together with its path, and only once it has both
     * required columns, so a campaign can read each row's `email` and `name`.
     */
    ghost predicate Valid()
      reads this
    {
      && (df.Some? <==> csvFile.Some?)
      && (df.Some? ==> HasRequiredColumns(df.value))
    }

    /** A fresh sender: empty settings, no table, and today's count read from the quota file. */
    constructor (file: QuotaFile, today: Date)
      ensures Valid()
      ensures senderEmail == "" && senderPassword == "" && emailSubject == "" && emailBody == ""
      ensures csvFile == None && df == None
      ensures quotaFile == file
      ensures sentToday == LoadEmailCount(file, today)
    {
      senderEmail, senderPassword := "", "";
      emailSubject, emailBody := "", "";
      csvFile, df := None, None;
      quotaFile := file;
      sentToday := LoadEmailCount(file, today);
    }

    method SetCredentials(email: string, password: string)
      modifies this`senderEmail, this`senderPassword
      ensures senderEmail == email && senderPassword == password
    {
      senderEmail, senderPassword := email, password;
    }

    method SetEmailContent(subject: string, body: string)
      modifies this`emailSubject, this`emailBody
      ensures emailSubject == subject && emailBody == body
    {
      emailSubject, emailBody := subject, body;
    }

    /**
     * Loads the table `parsed` read from `filePath`. A table without the
     * `email` or `name` column, or a parse that raised, is reported and
     * leaves the held table and path as they were.
     */
    method LoadCsv(filePath: string, parsed: Result<Table, string>) returns (table: Option<Table>, error: Option<string>)
      requires Valid()
      modifies this`df, this`csvFile
      ensures Valid()
      ensures table.Some? <==> error.None?
      ensures parsed.Failure? ==> error == Some(parsed.error)
      ensures parsed.Success? && !HasRequiredColumns(parsed.value) ==> error == Some(MissingColumnsMessage)
      ensures error.Some? ==> df == old(df) && csvFile == old(csvFile)
      ensures parsed.Success? && HasRequiredColumns(parsed.value) ==>
        table == Some(parsed.value) && df == Some(parsed.value) && csvFile == Some(filePath)
    {
      match parsed
      case Failure(reason) =>
        return None, Some(reason);
      case Success(t) =>
        if !HasRequiredColumns(t) {
          return None, Some(MissingColumnsMessage);
        }
        df, csvFile := Some(t), Some(filePath);
        return Some(t), None;
    }

    /** Overwrites the quota file with `count` stamped `today`; a write that fails (`written` false) is swallowed. */
    method SaveEmailCount(count: int, today: Date, written: bool)
      modifies this`quotaFile
      ensures quotaFile == if written then Saved(today, count) else old(quotaFile)
    {
      if written {
        quotaFile := Saved(today, count);
      }
    }

    /**
     * Runs one campaign over the held table. The relay is abstracted as
     * outcomes: `session` for connect, secure upgrade and login together,
     * `transmits[i]` for the transmit of row `i`, `quit` for closing the
     * session, and `written` for the quota file write. Returns the report,
     * whether a session was opened, the messages handed to the relay and the
     * progress lines. Only a campaign that runs to its end (including the
     * close) adds what it sent to the count and saves it.
     */
    method SendEmails(today: Date, session: Attempt, transmits: seq<Attempt>, quit: Attempt, written: bool)
      returns (report: Report, dialled: bool, attempted: seq<Message>, progress: seq<Progress>)
      requires Valid()
      requires df.Some? ==> |transmits| == |df.value.rows|
      modifies this`sentToday, this`quotaFile
      ensures Valid()
      ensures df.None? || IsEmpty(df.value) ==>
        report == Failed(NotLoadedMessage) && !dialled && attempted == [] && progress == []
      ensures df.Some? && !IsEmpty(df.value) && old(sentToday) >= DailyLimit ==>
        report == Failed(LimitMessage) && !dialled && attempted == [] && progress == []
      ensures dialled <==> df.Some? && !IsEmpty(df.value) && old(sentToday) < DailyLimit
      ensures dialled && session.Raised? ==>
        report == Failed(session.reason) && attempted == [] && progress == []
      ensures dialled && session.Ok? ==>
        var b := Planned(Content(senderEmail, emailSubject, emailBody), df.value.rows, old(sentToday), transmits);
        && attempted == b.attempted && progress == b.progress
        && (b.failure.Some? ==> report == Failed(b.failure.value))
        && (b.failure.None? && quit.Raised? ==> report == Failed(quit.reason))
        && (b.failure.None? && quit.Ok? ==>
              && report == Summary(b.sent, DailyLimit - sentToday)
              && sentToday == old(sentToday) + b.sent
              && quotaFile == if written then Saved(today, sentToday) else old(quotaFile))
      ensures report.Failed? ==> sentToday == old(sentToday) && quotaFile == old(quotaFile)
      ensures report.Summary? ==> 0 <= report.remaining && sentToday <= DailyLimit
      ensures old(sentToday) <= sentToday
      ensures old(sentToday) <= DailyLimit ==> sentToday <= DailyLimit
    {
      dialled, attempted, progress := false, [], [];
      if df.None? || IsEmpty(df.value) {
        report := Failed(NotLoadedMessage);
        return;
      }
      if sentToday >= DailyLimit {
        report := Failed(LimitMessage);
        return;
      }
      dialled := true;
      if session.Raised? {
        report := Failed(session.reason);
        return;
      }
      var content := Content(senderEmail, emailSubject, emailBody);
      var emailsSent, failure;
      emailsSent, failure, attempted, progress := Dispatch(content, df.value.rows, sentToday, transmits);
      if failure.Some? {
        report := Failed(failure.value);
        return;
      }
      if quit.Raised? {
        report := Failed(quit.reason);
        return;
      }
      sentToday := sentToday + emailsSent;
      SaveEmailCount(sentToday, today, written);
      report := Summary(emailsSent, DailyLimit - sentToday);
    }
  }
}
