# Email automation: a verified model of the batch sender

This project models the `EmailSender` class of a desktop mail-merge tool.
The tool reads a recipient table with `name` and `email` columns. It
personalizes one body template per recipient and sends each message over an
authenticated SMTP session. It also enforces a daily quota of 500 messages,
kept in a small JSON file across restarts.

The model has one module per concern:

- `Personalization` models `body.replace("{name}", name)` as Python's
  `str.replace`: leftmost, non-overlapping, one pass. It proves that this
  equals `name.join(body.split("{name}"))`. So the text between placeholders
  is kept byte for byte, and a body without a placeholder is sent unchanged.
- `Quota` holds the quota file: missing, unreadable, or a record whose `date`
  and `count` keys may each be absent. `LoadEmailCount` applies the
  date-rollover rule. `Saved` is the record a completed campaign writes.
- `Recipients` holds the table: column names plus `(name, email)` rows in
  file order.
- `SendLoop` holds the per-row loop of `send_emails` as the method
  `Dispatch`. It walks the rows, re-checks the quota before each row and
  stops at the first transmit that raises. `Dispatch` is proved equal to the
  closed-form `Planned`. The contract of `Planned` states the bounds, the
  order of attempts and the order of progress lines.
- `Mailer` holds the class `EmailSender`. Its fields are the settings, the
  held table and path, `sentToday` and the quota file. Its methods update
  those fields in place.
- `Scenarios` has four client methods. They show what a caller can conclude
  from the contracts alone.

The outside world is turned into inputs:

- The relay session (connect, STARTTLS and login) is one `Attempt`.
- Each `sendmail` is one entry of `transmits`, indexed by row.
- `server.quit()` is one `Attempt`.
- The success of the quota-file write is a flag.
- "Today" is a `Date` parameter.
- The result of CSV parsing is a `Result<Table, string>`.

Behaviour of the code that the model keeps as it is:

- Partial sends are not counted. A transmit that raises in the middle of a
  campaign skips main.py:103-104, so the messages already sent are not added
  to `sentToday` and nothing is saved.
- A raising `server.quit()` is handled the same way (main.py:101).
- The quota is read only once, when the sender is constructed
  (main.py:27). It is not re-read before each campaign.
- A failed write of the quota file is swallowed. The campaign still reports
  success (main.py:68-69).

## Model

| member | source | states |
|---|---|---|
| `Personalization.Split` | main.py:89 | The pieces of the body around the leftmost non-overlapping `{name}` occurrences join back to the body, and no piece holds a placeholder of its own. |
| `Personalization.ReplaceAbsent` | main.py:89 | A body with no `{name}` comes out of the replacement unchanged. |
| `Personalization.ReplaceThrough` | main.py:89 | A literal piece followed by `{name}` is copied, the placeholder becomes the name, and scanning resumes after the placeholder. |
| `Personalization.ReplaceFillsSlots` | main.py:89 | A body made of literal pieces joined by `{name}` becomes the same pieces joined by the name. |
| `Personalization.ReplaceIsSplitJoin` | main.py:89 | For every body, the replacement equals `name.join(body.split("{name}"))`. |
| `Personalization.Personalize` | main.py:89 | The personalized body is the split-and-join of the template with the recipient's name. A template without `{name}` is sent unchanged. |
| `Personalization.PersonalizeOnce` | main.py:89 | One pass only: a name that itself contains `{name}` is inserted verbatim and never expanded again. |
| `Quota.LoadEmailCount` | main.py:48-60 | A non-zero count comes only from a record stamped today, and it is that record's count. A record stamped today with a count yields that count. A missing file, an unreadable file, another date or a missing key yields 0. |
| `Quota.Saved` | main.py:62-64 | The written record reads back as the saved count on the same day, and as 0 on every other day. |
| `SendLoop.Compose` | main.py:87-95 | Every message has the same From (the sender) and the same Subject. Its To is the row's email. Its body is the template personalized with the row's name. |
| `SendLoop.SentLinesCount` | main.py:98-99 | One "sent to" progress line per row sent: the count of such lines equals the number of rows. |
| `SendLoop.FirstRaised` | main.py:97 | Finds the first transmit that raised: every transmit before it returned. With no result, every transmit returned. |
| `SendLoop.Reach` | main.py:82-85 | The quota check lets the loop reach all rows, or exactly as many as bring `sentToday + emails_sent` to the limit, and never more. |
| `SendLoop.Planned` | main.py:81-99 | Bound: `emails_sent <= DAILY_LIMIT - sent_today`. Messages go to rows 0, 1, ... in order, a row is tried only if every earlier transmit returned, and every row tried (the one that raises included) is within the quota: `sent_today + attempts <= DAILY_LIMIT`. A raise ends the loop at that row, with its error. The k-th progress line is "sent to" row k, and "sent to" lines equal `emails_sent`. A single "limit reached" line, carrying the count sent, is the last line exactly when no transmit raised and rows remain. |
| `SendLoop.Dispatch` | main.py:81-99 | The loop, which breaks on the quota and stops at a raised transmit, yields exactly the closed-form outcome `Planned`. |
| `Mailer.EmailSender.constructor` | main.py:20-27 | Settings start empty and no table is loaded. `sentToday` is the count loaded from the quota file for today. |
| `Mailer.EmailSender.SetCredentials` | main.py:29-31 | Sets the sender address and password and nothing else. |
| `Mailer.EmailSender.LoadCsv` | main.py:33-42 | A parse error or a missing `email`/`name` column returns that error and leaves the table and path as they were. Otherwise both fields are set and no error is returned. The invariant "a table is held only with its path and its two columns" is kept. |
| `Mailer.EmailSender.SetEmailContent` | main.py:44-46 | Sets the subject and body and nothing else. |
| `Mailer.EmailSender.SaveEmailCount` | main.py:62-69 | Overwrites the quota file with the count stamped today. A failed write leaves the file as it was. |
| `Mailer.EmailSender.SendEmails` | main.py:71-110 | With no table or an empty table: the "not loaded" error, with no session, no transmit and no state change. With the quota used up: the limit error, before any session. The invariant on the held table is kept. A failed session, transmit or close: that error, with `sentToday` and the quota file unchanged. On completion: `sentToday` grows by exactly the number sent, it is saved with today's date, and the reported remaining quota is at least 0. |

## Left out

- The Tkinter wizard (main.py:114-251) is not part of this model. It is widget wiring, and its non-empty-field checks are interface guards.
- SMTP, STARTTLS and the network are represented only by the success or failure of each call. The relay host and port (main.py:15-16) and the quota file's name (main.py:18) are not modelled, since only the outcome of each call matters.
- MIME construction and serialization are not modelled. A message is a record of From, To, Subject and body.
- CSV parsing by pandas is not modelled. A load receives the parser's outcome as a value: a table or an error message.
- JSON reading and writing and the file-existence test are not modelled. The file is the `QuotaFile` value, and a failed write is a flag.
- The clock and the logging output are not modelled: today's date is a parameter, and nothing is logged.
- The progress callback is not modelled. Its lines are returned in order as `Progress` values that carry the interpolated address or count; the emoji text is not reproduced. The success summary is `Summary(sent, remaining)` instead of its formatted sentence.
- Cells with no value (a missing name or address) are not modelled. With them, the replacement or the transmit would raise; the model's rows always hold text.
- Quota counts stored as something other than an integer are not modelled.
- `Mailer.EmailSender.SendEmails` requires one transmit outcome per row of the held table. This is the shape of the relay oracle, not a demand of the source. The source does not restrict the table.
