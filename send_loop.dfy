/**
 * The per-recipient loop of a campaign: rows are taken in table order, the
 * quota is re-checked before each one, each row gets its own personalized
 * message, and the first transmit that raises ends the loop.
 */
module SendLoop {
  import opened Wrappers
  import opened Personalization
  import opened Quota
  import opened Recipients

  /** The outcome of one call into the mail relay: it returned, or it raised with a message. */
  datatype Attempt = Ok | Raised(reason: string)

  /** The fixed part of every message of a campaign. */
  datatype Content = Content(sender: string, subject: string, body: string)

  /** A plain-text message envelope: From, To, Subject and body. */
  datatype Message = Message(sender: string, recipient: string, subject: string, body: string)

  /** One line handed to the progress callback. */
  datatype Progress =
    | SentTo(email: string)      // a transmit to this address returned
    | LimitReached(sent: nat)    // the quota stopped the loop after `sent` transmits

  /** What the loop did: transmits that returned, the error that ended it, the messages handed to the relay, the progress lines. */
  datatype Batch = Batch(sent: nat, failure: Option<string>, attempted: seq<Message>, progress: seq<Progress>)

  /** The message for one row: fixed From and Subject, the row's address, the body personalized with the row's name. */
  function Compose(c: Content, row: Row): (m: Message)
    ensures m.sender == c.sender && m.subject == c.subject && m.recipient == row.email
    ensures m.body == Join(Split(c.body, Placeholder), row.name)
  {
    Message(c.sender, row.email, c.subject, Personalize(c.body, row.name))
  }

  /** The messages for `rows`, in order. */
  function Messages(c: Content, rows: seq<Row>): seq<Message> {
    seq(|rows|, j requires 0 <= j < |rows| => Compose(c, rows[j]))
  }

  /** The `SentTo` lines for `rows`, in order. */
  function SentLines(rows: seq<Row>): seq<Progress> {
    seq(|rows|, j requires 0 <= j < |rows| => SentTo(rows[j].email))
  }

  /** How many lines of `progress` report a transmit. */
  function SentCount(progress: seq<Progress>): nat
    decreases |progress|
  {
    if progress == [] then 0
    else SentCount(progress[..|progress| - 1]) + (if progress[|progress| - 1].SentTo? then 1 else 0)
  }

  /** Every row of `SentLines(rows)` reports a transmit. */
  lemma {:induction false} SentLinesCount(rows: seq<Row>)
    ensures SentCount(SentLines(rows)) == |rows|
    decreases |rows|
  {
    if rows != [] {
      var init := rows[..|rows| - 1];
      assert SentLines(rows)[..|rows| - 1] == SentLines(init);
      SentLinesCount(init);
    }
  }

  /** The index of the first call that raised, if any. */
  function FirstRaised(calls: seq<Attempt>): (r: Option<nat>)
    ensures r.None? ==> forall j :: 0 <= j < |calls| ==> calls[j].Ok?
    ensures r.Some? ==> r.value < |calls| && calls[r.value].Raised?
    ensures r.Some? ==> forall j :: 0 <= j < r.value ==> calls[j].Ok?
    decreases |calls|
  {
    if calls == [] then None
    else if calls[0].Raised? then Some(0)
    else
      match FirstRaised(calls[1..])
      case None => None
      case Some(f) => Some(f + 1)
  }

  /** How many rows the quota lets the loop reach: all of them, or as many as bring the count to the limit. */
  function Reach(sentToday: int, n: nat): (k: nat)
    requires sentToday < DailyLimit
    ensures k <= n && sentToday + k <= DailyLimit
    ensures k == n || sentToday + k == DailyLimit
  {
    if DailyLimit - sentToday < n then DailyLimit - sentToday else n
  }

  /**
   * The outcome of the loop, in closed form. With `sentToday` below the
   * limit, the loop reaches the first `Reach` rows; if one of their
   * transmits raises, the rows before it are sent, its message is the
   * last handed over, and no line follows; otherwise every reached row is
   * sent, and if rows remain a single limit line closes the progress.
   */
  function Planned(c: Content, rows: seq<Row>, sentToday: int, transmits: seq<Attempt>): (b: Batch)
    requires sentToday < DailyLimit
    requires |transmits| == |rows|
    ensures b.sent <= |rows| && sentToday + b.sent <= DailyLimit
    ensures forall j :: 0 <= j < b.sent ==> transmits[j].Ok?
    ensures b.failure.Some? ==> b.sent < |rows| && transmits[b.sent].Raised? && b.failure.value == transmits[b.sent].reason
    ensures b.failure.None? ==> b.sent == |rows| || sentToday + b.sent == DailyLimit
    ensures |b.attempted| == (if b.failure.Some? then b.sent + 1 else b.sent)
    ensures sentToday + |b.attempted| <= DailyLimit
    ensures forall j :: 0 <= j < |b.attempted| ==> b.attempted[j] == Compose(c, rows[j])
    ensures SentCount(b.progress) == b.sent && b.sent <= |b.progress| <= b.sent + 1
    ensures forall j :: 0 <= j < b.sent ==> b.progress[j] == SentTo(rows[j].email)
    ensures |b.progress| == b.sent + 1 <==> b.failure.None? && b.sent < |rows|
    ensures |b.progress| == b.sent + 1 ==> b.progress[b.sent] == LimitReached(b.sent)
  {
    var k := Reach(sentToday, |rows|);
    var reached := transmits[..k];
    match FirstRaised(reached)
    case Some(f) =>
      assert forall j :: 0 <= j <= f ==> reached[j] == transmits[j];
      Stopped(c, rows, f, transmits[f].reason)
    case None =>
      assert forall j :: 0 <= j < k ==> reached[j] == transmits[j];
      Completed(c, rows, k)
  }

  /** A loop that ended on the raised transmit of row `f`: rows before it sent, its message the last handed over. */
  function Stopped(c: Content, rows: seq<Row>, f: nat, reason: string): (b: Batch)
    requires f < |rows|
    ensures b.sent == f && b.failure == Some(reason)
    ensures |b.attempted| == f + 1 && forall j :: 0 <= j <= f ==> b.attempted[j] == Compose(c, rows[j])
    ensures |b.progress| == f && SentCount(b.progress) == f
    ensures forall j :: 0 <= j < f ==> b.progress[j] == SentTo(rows[j].email)
  {
    SentLinesCount(rows[..f]);
    Batch(f, Some(reason), Messages(c, rows[..f + 1]), SentLines(rows[..f]))
  }

  /** A loop that sent the first `k` rows and, if rows remain, closed with one limit line. */
  function Completed(c: Content, rows: seq<Row>, k: nat): (b: Batch)
    requires k <= |rows|
    ensures b.sent == k && b.failure == None
    ensures |b.attempted| == k && forall j :: 0 <= j < k ==> b.attempted[j] == Compose(c, rows[j])
    ensures SentCount(b.progress) == k && k <= |b.progress| <= k + 1
    ensures forall j :: 0 <= j < k ==> b.progress[j] == SentTo(rows[j].email)
    ensures k == |rows| ==> b.progress == SentLines(rows)
    ensures k < |rows| ==> b.progress == SentLines(rows[..k]) + [LimitReached(k)]
  {
    SentLinesCount(rows[..k]);
    var lines := SentLines(rows[..k]);
    if k < |rows| then
      assert (lines + [LimitReached(k)])[..k] == lines;
      Batch(k, None, Messages(c, rows[..k]), lines + [LimitReached(k)])
    else
      assert rows[..k] == rows;
      Batch(k, None, Messages(c, rows), lines)
  }

  /**
   * The loop itself, from the first row to the first that stops it. It
   * reads only its inputs; the campaign applies its result to the quota.
   */
  method Dispatch(c: Content, rows: seq<Row>, sentToday: int, transmits: seq<Attempt>)
    returns (emailsSent: nat, failure: Option<string>, attempted: seq<Message>, progress: seq<Progress>)
    requires sentToday < DailyLimit
    requires |transmits| == |rows|
    ensures Batch(emailsSent, failure, attempted, progress) == Planned(c, rows, sentToday, transmits)
  {
    emailsSent, failure, attempted, progress := 0, None, [], [];
    var i := 0;
    while i < |rows|
      invariant 0 <= i <= |rows| && emailsSent == i
      invariant sentToday + i <= DailyLimit
      invariant forall j :: 0 <= j < i ==> transmits[j].Ok?
      invariant attempted == Messages(c, rows[..i])
      invariant progress == SentLines(rows[..i])
    {
      if sentToday + emailsSent >= DailyLimit {
        progress := progress + [LimitReached(emailsSent)];
        PlannedCompletes(c, rows, sentToday, transmits, i);
        return;
      }
      var message := Compose(c, rows[i]);
      MessagesSnoc(c, rows, i);
      attempted := attempted + [message];
      if transmits[i].Raised? {
        failure := Some(transmits[i].reason);
        PlannedStops(c, rows, sentToday, transmits, i);
        return;
      }
      emailsSent := emailsSent + 1;
      SentLinesSnoc(rows, i);
      progress := progress + [SentTo(rows[i].email)];
      i := i + 1;
    }
    PlannedCompletes(c, rows, sentToday, transmits, i);
  }

  lemma MessagesSnoc(c: Content, rows: seq<Row>, i: nat)
    requires i < |rows|
    ensures Messages(c, rows[..i + 1]) == Messages(c, rows[..i]) + [Compose(c, rows[i])]
  {
  }

  lemma SentLinesSnoc(rows: seq<Row>, i: nat)
    requires i < |rows|
    ensures SentLines(rows[..i + 1]) == SentLines(rows[..i]) + [SentTo(rows[i].email)]
  {
  }

  /** The loop outcome when the transmit of row `i`, reached by the quota, is the first to raise. */
  lemma PlannedStops(c: Content, rows: seq<Row>, sentToday: int, transmits: seq<Attempt>, i: nat)
    requires |transmits| == |rows| && i < |rows| && sentToday + i < DailyLimit
    requires transmits[i].Raised? && forall j :: 0 <= j < i ==> transmits[j].Ok?
    ensures Planned(c, rows, sentToday, transmits)
         == Batch(i, Some(transmits[i].reason), Messages(c, rows[..i + 1]), SentLines(rows[..i]))
  {
    var k := Reach(sentToday, |rows|);
    assert transmits[..k][i] == transmits[i];
    assert FirstRaised(transmits[..k]) == Some(i);
  }

  /** The loop outcome when the first `i` rows are all the quota lets through and all of them were sent. */
  lemma PlannedCompletes(c: Content, rows: seq<Row>, sentToday: int, transmits: seq<Attempt>, i: nat)
    requires |transmits| == |rows| && i <= |rows| && sentToday < DailyLimit && sentToday + i <= DailyLimit
    requires i == |rows| || sentToday + i == DailyLimit
    requires forall j :: 0 <= j < i ==> transmits[j].Ok?
    ensures Planned(c, rows, sentToday, transmits) == Completed(c, rows, i)
  {
    assert Reach(sentToday, |rows|) == i;
    assert FirstRaised(transmits[..i]).None?;
  }
}
