/** Per-report display helpers: the relative-age label and the category badge. */
module ReportView {
  import opened Wrappers
  import opened JsText

  const MsPerMinute := 60000
  const MsPerHour := 3600000
  const MsPerDay := 86400000

  /** Which branch of `formatDate` applies. `CalendarDate` stands for the locale date string. */
  datatype AgeLabel = JustNow | MinutesAgo(n: nat) | HoursAgo(n: nat) | DaysAgo(n: nat) | CalendarDate

  /** `formatDate` on `diff = now - createdAt` in milliseconds, with every quotient floored. */
  function FormatAge(diff: int): (age: AgeLabel)
    ensures age == JustNow <==> diff < MsPerMinute
    ensures age.MinutesAgo? <==> MsPerMinute <= diff < MsPerHour
    ensures age.HoursAgo? <==> MsPerHour <= diff < MsPerDay
    ensures age.DaysAgo? <==> MsPerDay <= diff < 7 * MsPerDay
    ensures age == CalendarDate <==> 7 * MsPerDay <= diff
    ensures age.MinutesAgo? ==> 1 <= age.n < 60 && age.n * MsPerMinute <= diff < (age.n + 1) * MsPerMinute
    ensures age.HoursAgo? ==> 1 <= age.n < 24 && age.n * MsPerHour <= diff < (age.n + 1) * MsPerHour
    ensures age.DaysAgo? ==> 1 <= age.n < 7 && age.n * MsPerDay <= diff < (age.n + 1) * MsPerDay
  {
    var mins := diff / MsPerMinute;
    var hours := diff / MsPerHour;
    var days := diff / MsPerDay;
    if mins < 1 then JustNow
    else if mins < 60 then MinutesAgo(mins)
    else if hours < 24 then HoursAgo(hours)
    else if days < 7 then DaysAgo(days)
    else CalendarDate
  }

  /** Position of an age label on the age scale. */
  function Rank(age: AgeLabel): nat {
    match age
    case JustNow => 0
    case MinutesAgo(_) => 1
    case HoursAgo(_) => 2
    case DaysAgo(_) => 3
    case CalendarDate => 4
  }

  /** An older report never gets a fresher label, and within one unit the count never drops. */
  lemma FormatAgeMonotone(d1: int, d2: int)
    requires d1 <= d2
    ensures Rank(FormatAge(d1)) <= Rank(FormatAge(d2))
    ensures FormatAge(d1).MinutesAgo? && FormatAge(d2).MinutesAgo? ==> FormatAge(d1).n <= FormatAge(d2).n
    ensures FormatAge(d1).HoursAgo? && FormatAge(d2).HoursAgo? ==> FormatAge(d1).n <= FormatAge(d2).n
    ensures FormatAge(d1).DaysAgo? && FormatAge(d2).DaysAgo? ==> FormatAge(d1).n <= FormatAge(d2).n
  {
  }

  function DigitChar(d: int): char
    requires 0 <= d < 10
  {
    ('0' as int + d) as char
  }

  /** Decimal notation of a natural number, as template-literal interpolation prints it. */
  function Decimal(n: nat): (s: string)
    ensures |s| >= 1
    ensures forall i :: 0 <= i < |s| ==> '0' <= s[i] <= '9'
    ensures s[0] == '0' ==> n == 0
    ensures |s| > 1 ==> s[0] != '0'
  {
    if n < 10 then [DigitChar(n)] else Decimal(n / 10) + [DigitChar(n % 10)]
  }

  /** The number a string of decimal digits denotes. */
  function DigitsValue(s: string): nat
    requires forall i :: 0 <= i < |s| ==> '0' <= s[i] <= '9'
  {
    if s == [] then 0 else DigitsValue(s[..|s| - 1]) * 10 + (s[|s| - 1] as int - '0' as int)
  }

  /** Reading the printed digits back gives the number. */
  lemma {:induction false} DecimalRoundTrip(n: nat)
    ensures DigitsValue(Decimal(n)) == n
  {
    if n >= 10 {
      var s := Decimal(n);
      assert s[..|s| - 1] == Decimal(n / 10);
      DecimalRoundTrip(n / 10);
    }
  }

  /** The label as text; `localeDate` is what `toLocaleDateString` produces for the date. */
  function AgeText(age: AgeLabel, localeDate: string): (text: string)
    ensures age == JustNow ==> text == "just now"
    ensures age == CalendarDate ==> text == localeDate
    ensures age.MinutesAgo? || age.HoursAgo? || age.DaysAgo? ==>
      && |text| >= 2
      && text[|text| - 1] == (if age.MinutesAgo? then 'm' else if age.HoursAgo? then 'h' else 'd')
      && (forall i :: 0 <= i < |text| - 1 ==> '0' <= text[i] <= '9')
      && DigitsValue(text[..|text| - 1]) == age.n
      && (|text| > 2 ==> text[0] != '0')
  {
    match age
    case JustNow => "just now"
    case MinutesAgo(n) => DecimalRoundTrip(n); WithUnit(n, 'm')
    case HoursAgo(n) => DecimalRoundTrip(n); WithUnit(n, 'h')
    case DaysAgo(n) => DecimalRoundTrip(n); WithUnit(n, 'd')
    case CalendarDate => localeDate
  }

  /** A count followed by its unit letter; the text before the letter is the count's digits. */
  function WithUnit(n: nat, unit: char): (text: string)
    ensures |text| >= 2 && text[|text| - 1] == unit && text[..|text| - 1] == Decimal(n)
  {
    Decimal(n) + [unit]
  }

  /** The text of a minutes, hours or days label is the count, without a leading zero, followed by
      its unit letter. */
  lemma AgeTextReadsBack(diff: int, localeDate: string)
    requires MsPerMinute <= diff < 7 * MsPerDay
    ensures var t := AgeText(FormatAge(diff), localeDate);
      && |t| >= 2
      && t[|t| - 1] == (if diff < MsPerHour then 'm' else if diff < MsPerDay then 'h' else 'd')
      && (forall i :: 0 <= i < |t| - 1 ==> '0' <= t[i] <= '9')
      && DigitsValue(t[..|t| - 1]) == FormatAge(diff).n
      && t[0] != '0'
  {
  }

  /** A category badge: background colour, text colour, label. */
  datatype Badge = Badge(background: string, foreground: string, text: string)

  const CorruptionBadge := Badge("#fee2e2", "#dc2626", "\U{1F6A8} Corruption")
  const FraudBadge := Badge("#fed7aa", "#ea580c", "\U{26A0}\U{FE0F} Fraud")
  const HarassmentBadge := Badge("#e9d5ff", "#9333ea", "\U{1F6D1} Harassment")
  const SafetyBadge := Badge("#fef3c7", "#d97706", "\U{26A1} Safety")
  const OtherBadge := Badge("#e5e7eb", "#6b7280", "\U{1F4E2} Other")

  /** The five-entry style table keyed by lower-case category. */
  const Styles: map<string, Badge> := map[
    "corruption" := CorruptionBadge,
    "fraud" := FraudBadge,
    "harassment" := HarassmentBadge,
    "safety" := SafetyBadge,
    "other" := OtherBadge
  ]

  /** `getCategoryBadge`: look the lower-cased category up, falling back to "other" when the
      category is missing or unknown. */
  function CategoryBadge(category: Option<string>): (b: Badge)
    ensures b in Styles.Values
    ensures category.Some? && ToLower(category.value) in Styles ==> b == Styles[ToLower(category.value)]
    ensures b == OtherBadge <==>
      category.None? || ToLower(category.value) !in {"corruption", "fraud", "harassment", "safety"}
  {
    match category
    case None => Styles["other"]
    case Some(c) =>
      var key := ToLower(c);
      if key in Styles then Styles[key] else Styles["other"]
  }

  /** The lookup ignores ASCII case. */
  lemma CategoryBadgeIgnoresCase(c: string)
    ensures CategoryBadge(Some(c)) == CategoryBadge(Some(ToLower(c)))
  {
    ToLowerIdempotent(c);
  }
}
