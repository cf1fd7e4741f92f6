/**
 * sky-nexus's `DateTimeConfig`: an optional timezone and an optional
 * strftime format, each read back with a default when unset.
 */
module DateTimeConfigs {
  import opened Wrappers

  const DefaultTimezone: string := "UTC"
  const DefaultFormat: string := "%Y-%m-%d %H:%M:%S UTC"

  /** The query parameters of the date-time endpoint. */
  datatype GetDateTimeQuery = GetDateTimeQuery(timezone: Option<string>, format: Option<string>)

  datatype DateTimeConfig = DateTimeConfig(timezone: Option<string>, format: Option<string>)
  {
    /** `DateTimeConfig::new`: nothing set. */
    static function New(): (c: DateTimeConfig)
      ensures c.timezone.None? && c.format.None?
    {
      DateTimeConfig(None, None)
    }

    /** `Default`: the same as `new`. */
    static function Default(): (c: DateTimeConfig)
      ensures c.timezone.None? && c.format.None?
    {
      New()
    }

    /** `From<GetDateTimeQuery>`: both fields copied. */
    static function FromQuery(q: GetDateTimeQuery): (c: DateTimeConfig)
      ensures c.timezone == q.timezone && c.format == q.format
    {
      DateTimeConfig(q.timezone, q.format)
    }

    /** `with_timezone`: sets the timezone and nothing else. */
    function WithTimezone(tz: string): (c: DateTimeConfig)
      ensures c.timezone == Some(tz) && c.format == format
    {
      this.(timezone := Some(tz))
    }

    /** `with_format`: sets the format and nothing else. */
    function WithFormat(f: string): (c: DateTimeConfig)
      ensures c.format == Some(f) && c.timezone == timezone
    {
      this.(format := Some(f))
    }

    /** `timezone()`: the stored timezone, "UTC" when unset. */
    function Timezone(): (tz: string)
      ensures timezone.Some? ==> tz == timezone.value
      ensures timezone.None? ==> tz == "UTC"
    {
      match timezone
      case Some(t) => t
      case None => DefaultTimezone
    }

    /** `format()`: the stored format, the UTC date-time pattern when unset. */
    function Format(): (f: string)
      ensures format.Some? ==> f == format.value
      ensures format.None? ==> f == "%Y-%m-%d %H:%M:%S UTC"
    {
      match format
      case Some(v) => v
      case None => DefaultFormat
    }
  }

  /** A fresh configuration reads back the two defaults. */
  lemma DefaultsReadBack()
    ensures DateTimeConfig.Default().Timezone() == "UTC"
    ensures DateTimeConfig.Default().Format() == "%Y-%m-%d %H:%M:%S UTC"
  {
  }

  /** What a builder sets is what the accessor reads, and the other accessor is unaffected. */
  lemma BuildersReadBack(c: DateTimeConfig, tz: string, f: string)
    ensures c.WithTimezone(tz).Timezone() == tz
    ensures c.WithTimezone(tz).Format() == c.Format()
    ensures c.WithFormat(f).Format() == f
    ensures c.WithFormat(f).Timezone() == c.Timezone()
  {
  }

  /** The two builders commute, and a second call of the same builder wins. */
  lemma BuildersCommute(c: DateTimeConfig, tz: string, tz2: string, f: string)
    ensures c.WithTimezone(tz).WithFormat(f) == c.WithFormat(f).WithTimezone(tz)
    ensures c.WithTimezone(tz).WithTimezone(tz2) == c.WithTimezone(tz2)
  {
  }

  /** A configuration built from a query with both parameters equals one built with both builders. */
  lemma QueryIsBuilders(tz: string, f: string)
    ensures DateTimeConfig.FromQuery(GetDateTimeQuery(Some(tz), Some(f)))
              == DateTimeConfig.New().WithTimezone(tz).WithFormat(f)
  {
  }
}
