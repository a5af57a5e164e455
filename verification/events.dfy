/** What travels on the five ad topics, and the minute arithmetic both routes share. */
module Events {

  datatype Option<+T> = None | Some(value: T)

  /** The archived topics, in the alphabetical order of their names (`source_topic`). */
  datatype Topic = AdClick | AdImpression | AdQuartile | AdRequest | UserBehavior

  function TopicRank(t: Topic): nat
  {
    match t
    case AdClick => 0
    case AdImpression => 1
    case AdQuartile => 2
    case AdRequest => 3
    case UserBehavior => 4
  }

  /** One Kafka record. `eventTime` is in milliseconds since the epoch; `rest` stands for the
      columns neither route computes with (device, session, creative, markers of the generator). */
  datatype Record = Record(
    topic: Topic,
    eventId: string,
    eventType: string,
    campaign: Option<string>,
    adRequestId: Option<string>,
    source: Option<string>,
    quartile: Option<string>,
    fill: Option<bool>,
    twinOf: Option<string>,
    eventTime: int,
    rest: string)

  const MINUTE := 60_000
  const DAY := 86_400_000

  /** `FLOOR(t TO MINUTE)`, `date_trunc('minute', t)` and the start of the tumbling window. */
  function MinuteOf(t: int): (m: int)
    ensures m % MINUTE == 0 && m <= t < m + MINUTE
  {
    t - t % MINUTE
  }

  /** `to_date(t)` in UTC, as the first millisecond of the day. */
  function DayOf(t: int): (d: int)
    ensures d % DAY == 0 && d <= t < d + DAY
  {
    t - t % DAY
  }

  /** A range that starts and ends on minutes never cuts a minute in two. */
  lemma MinuteInRange(t: int, t0: int, t1: int)
    requires t0 % MINUTE == 0 && t1 % MINUTE == 0
    ensures t0 <= MinuteOf(t) < t1 <==> t0 <= t < t1
  {
  }

  /** Days start on minutes. */
  lemma DayOnMinutes(d: int)
    requires d % DAY == 0
    ensures d % MINUTE == 0 && (d + DAY) % MINUTE == 0
  {
    var q := d / DAY;
    Minutes(d, 1440 * q);
    Minutes(d + DAY, 1440 * q + 1440);
  }

  lemma Minutes(t: int, q: int)
    requires t == MINUTE * q
    ensures t % MINUTE == 0
  {
  }
}
