/**
 * The durable daily quota: a single `{date, count}` record, read once when
 * the sender starts and overwritten after each completed campaign. A record
 * stamped with another day counts as zero.
 */
module Quota {
  import opened Wrappers

  /** Most emails the sender may transmit in one calendar day. */
  const DailyLimit: int := 500

  /** A calendar day, as its ISO text `YYYY-MM-DD`. */
  type Date = string

  /**
   * What the quota file holds: no file, a file that cannot be read or is
   * not a JSON object, or an object whose `date` and `count` keys may each
   * be absent.
   */
  datatype QuotaFile =
    | Missing
    | Unreadable
    | Stored(date: Option<string>, count: Option<int>)

  /**
   * The number of emails already sent `today` according to `file`: the
   * stored count when the record is stamped `today` (a missing date reads
   * as the empty text, a missing count as 0), and 0 in every other case.
   */
  function LoadEmailCount(file: QuotaFile, today: Date): (count: int)
    ensures count != 0 ==> file.Stored? && file.date.GetOr("") == today && file.count == Some(count)
    ensures file.Stored? && file.date == Some(today) && file.count.Some? ==> count == file.count.value
  {
    match file
    case Stored(date, stored) =>
      if date.GetOr("") == today then stored.GetOr(0) else 0
    case _ => 0
  }

  /** The record written for `count` emails on `today`; read back the same day it gives `count`, on any other day 0. */
  function Saved(today: Date, count: int): (file: QuotaFile)
    ensures LoadEmailCount(file, today) == count
    ensures forall day :: day != today ==> LoadEmailCount(file, day) == 0
  {
    Stored(Some(today), Some(count))
  }
}
