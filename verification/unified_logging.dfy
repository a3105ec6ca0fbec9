/**
 The unified-logging decorator that opens every JDK 9+ log line, as far as the
 events use it: an optional wall-clock date-time and the JVM uptime, either in
 whole milliseconds ("[4ms]") or in fractional seconds ("[0.006s]").
 Log level and tags ("[info][gc,start ]") carry no data the events read.
 */
module UnifiedLogging {
  import opened Wrappers
  import opened Decimal
  import opened Conversions

  /** The uptime capture: the digits of "<n>ms", or the number of "<x>s". */
  datatype Uptime = UptimeMillis(millis: Digits) | UptimeSeconds(seconds: string)

  datatype Decorator = Decorator(datetime: Option<string>, uptime: Uptime)

  /**
   The event start time in milliseconds after JVM start. The uptime decides; the
   date-time is shown only for display and never consulted. Milliseconds are
   read as the number whose decimal text they are (leading zeros aside), so a
   timestamp of n digits stays below 10^n; seconds go through the conversion.
   */
  function Timestamp(m: JdkMath, d: Decorator): (r: int)
    ensures d.uptime.UptimeMillis? ==> 0 <= r < Pow10(|d.uptime.millis|)
    ensures d.uptime.UptimeMillis? ==> forall n: nat :: Show(n) == d.uptime.millis ==> r == n
    ensures d.uptime.UptimeSeconds? ==> r == m.convertSecsToMillis(d.uptime.seconds)
  {
    if d.uptime.UptimeMillis? then ReadShown(d.uptime.millis); Value(d.uptime.millis)
    else m.convertSecsToMillis(d.uptime.seconds)
  }
}
