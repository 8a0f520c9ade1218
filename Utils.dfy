/**
 * The clinical helpers of src/lib/utils.ts: vital-sign, confidence, BMI and lab-status
 * classification, relative-time buckets, `truncate`, `sanitizeInput`, the e-mail shape check
 * and the pseudonymized patient id. Measurements are exact reals; the clock and
 * `Math.random` are parameters.
 */
module Utils {
  import opened Wrappers
  import opened JsString

  // ---------------------------------------------------------------- vital signs

  datatype VitalType = BpSystolic | BpDiastolic | HeartRateType | RespRate | TempC | Spo2

  /** A row of the `ranges` table; a critical bound the table omits is `None`. */
  datatype VitalRange = VitalRange(low: real, high: real, criticalLow: Option<real>, criticalHigh: Option<real>)

  function Ranges(t: VitalType): VitalRange {
    match t
    case BpSystolic => VitalRange(90.0, 140.0, Some(80.0), Some(180.0))
    case BpDiastolic => VitalRange(60.0, 90.0, Some(50.0), Some(120.0))
    case HeartRateType => VitalRange(60.0, 100.0, Some(40.0), Some(150.0))
    case RespRate => VitalRange(12.0, 20.0, Some(8.0), Some(30.0))
    case TempC => VitalRange(36.1, 37.2, Some(35.0), Some(39.5))
    case Spo2 => VitalRange(95.0, 100.0, Some(90.0), Some(101.0))
  }

  datatype VitalStatus = VitalNormal | VitalWarning | VitalCritical

  datatype VitalEvaluation = VitalEvaluation(status: VitalStatus, message: string)

  /** `range.criticalLow && value < range.criticalLow`: a bound of 0 or none is skipped. */
  predicate BelowCritical(r: VitalRange, value: real) {
    r.criticalLow.Some? && r.criticalLow.value != 0.0 && value < r.criticalLow.value
  }

  predicate AboveCritical(r: VitalRange, value: real) {
    r.criticalHigh.Some? && r.criticalHigh.value != 0.0 && value > r.criticalHigh.value
  }

  /** `evaluateVitalSign`: the first of critical-low, critical-high, low, high that applies. */
  function EvaluateVitalSign(t: VitalType, value: real): (e: VitalEvaluation)
    ensures e.status == VitalCritical <==> BelowCritical(Ranges(t), value) || AboveCritical(Ranges(t), value)
    ensures e.status == VitalNormal <==> Ranges(t).low <= value <= Ranges(t).high
    ensures e.status == VitalWarning <==>
              !BelowCritical(Ranges(t), value) && !AboveCritical(Ranges(t), value) &&
              (value < Ranges(t).low || value > Ranges(t).high)
    ensures e.message != ""
    ensures BelowCritical(Ranges(t), value) ==> e.message == "Critically low - immediate attention required"
    ensures !BelowCritical(Ranges(t), value) && AboveCritical(Ranges(t), value) ==>
              e.message == "Critically high - immediate attention required"
    ensures e.status == VitalWarning && value < Ranges(t).low ==> e.message == "Below normal range"
    ensures e.status == VitalWarning && value > Ranges(t).high ==> e.message == "Above normal range"
    ensures e.status == VitalNormal ==> e.message == "Within normal range"
  {
    var range := Ranges(t);
    if BelowCritical(range, value) then VitalEvaluation(VitalCritical, "Critically low - immediate attention required")
    else if AboveCritical(range, value) then VitalEvaluation(VitalCritical, "Critically high - immediate attention required")
    else if value < range.low then VitalEvaluation(VitalWarning, "Below normal range")
    else if value > range.high then VitalEvaluation(VitalWarning, "Above normal range")
    else VitalEvaluation(VitalNormal, "Within normal range")
  }

  /** Every row nests: critical-low < low < high <= critical-high, and all bounds are set and non-zero. */
  lemma RangesNest(t: VitalType)
    ensures var r := Ranges(t);
      && r.criticalLow.Some? && r.criticalHigh.Some?
      && 0.0 < r.criticalLow.value < r.low < r.high <= r.criticalHigh.value
  {
  }

  /**
   * With every bound set, the status is critical exactly outside [criticalLow, criticalHigh],
   * and each side carries its own message.
   */
  lemma CriticalBands(t: VitalType, value: real)
    ensures EvaluateVitalSign(t, value).status == VitalCritical <==>
              value < Ranges(t).criticalLow.value || value > Ranges(t).criticalHigh.value
    ensures value < Ranges(t).criticalLow.value ==>
              EvaluateVitalSign(t, value).message == "Critically low - immediate attention required"
    ensures value > Ranges(t).criticalHigh.value ==>
              EvaluateVitalSign(t, value).message == "Critically high - immediate attention required"
  {
    RangesNest(t);
  }

  /** The bounds themselves are normal; for SpO2, 101 is only a warning and above 101 is critical. */
  lemma VitalBoundaries()
    ensures forall t :: EvaluateVitalSign(t, Ranges(t).low).status == VitalNormal
    ensures forall t :: EvaluateVitalSign(t, Ranges(t).high).status == VitalNormal
    ensures EvaluateVitalSign(Spo2, 101.0) == VitalEvaluation(VitalWarning, "Above normal range")
    ensures EvaluateVitalSign(Spo2, 101.5).status == VitalCritical
  {
  }

  // ---------------------------------------------------------------- confidence and BMI

  datatype ConfidenceLabel = ConfidenceLabel(name: string, color: string)

  /** `getConfidenceLabel`: the four score bands. */
  function GetConfidenceLabel(score: real): (c: ConfidenceLabel)
    ensures c.name == "High" <==> score >= 80.0
    ensures c.name == "Moderate" <==> 60.0 <= score < 80.0
    ensures c.name == "Low" <==> 40.0 <= score < 60.0
    ensures c.name == "Very Low" <==> score < 40.0
  {
    if score >= 80.0 then ConfidenceLabel("High", "text-emerald-600")
    else if score >= 60.0 then ConfidenceLabel("Moderate", "text-amber-600")
    else if score >= 40.0 then ConfidenceLabel("Low", "text-orange-600")
    else ConfidenceLabel("Very Low", "text-red-600")
  }

  /** The band's place, Very Low = 0 up to High = 3. */
  function ConfidenceRank(c: ConfidenceLabel): nat {
    if c.name == "High" then 3 else if c.name == "Moderate" then 2 else if c.name == "Low" then 1 else 0
  }

  /** A higher score never gets a lower band. */
  lemma ConfidenceMonotone(a: real, b: real)
    requires a <= b
    ensures ConfidenceRank(GetConfidenceLabel(a)) <= ConfidenceRank(GetConfidenceLabel(b))
  {
  }

  datatype Risk = RiskLow | RiskModerate | RiskHigh

  datatype BmiCategory = BmiCategory(category: string, risk: Risk)

  /** `getBMICategory`. */
  function GetBmiCategory(bmi: real): (c: BmiCategory)
    ensures c.category == "Underweight" <==> bmi < 18.5
    ensures c.category == "Normal weight" <==> 18.5 <= bmi < 25.0
    ensures c.category == "Overweight" <==> 25.0 <= bmi < 30.0
    ensures c.category == "Obese" <==> bmi >= 30.0
    ensures c.risk == RiskLow <==> c.category == "Normal weight"
    ensures c.risk == RiskHigh <==> c.category == "Obese"
  {
    if bmi < 18.5 then BmiCategory("Underweight", RiskModerate)
    else if bmi < 25.0 then BmiCategory("Normal weight", RiskLow)
    else if bmi < 30.0 then BmiCategory("Overweight", RiskModerate)
    else BmiCategory("Obese", RiskHigh)
  }

  // ---------------------------------------------------------------- relative time

  /** The bucket `formatRelativeTime` picks; `OlderDate` stands for the locale-formatted date. */
  datatype RelativeTime = JustNow | MinutesAgo(m: int) | HoursAgo(h: int) | DaysAgo(d: int) | OlderDate(at: int)

  /** `formatRelativeTime(date)` when the clock reads `now` (both in ms). */
  function FormatRelativeTime(date: int, now: int): (r: RelativeTime)
    ensures r == JustNow <==> now - date < 60000
    ensures r.MinutesAgo? ==> 1 <= r.m < 60 && r.m * 60000 <= now - date < (r.m + 1) * 60000
    ensures r.HoursAgo? ==> 1 <= r.h < 24 && r.h * 3600000 <= now - date < (r.h + 1) * 3600000
    ensures r.DaysAgo? ==> 1 <= r.d < 7 && r.d * 86400000 <= now - date < (r.d + 1) * 86400000
    ensures r.OlderDate? <==> now - date >= 7 * 86400000
    ensures r.OlderDate? ==> r.at == date
  {
    var diffMs := now - date;
    var diffMins := diffMs / 60000;
    var diffHours := diffMs / 3600000;
    var diffDays := diffMs / 86400000;
    if diffMins < 1 then JustNow
    else if diffMins < 60 then MinutesAgo(diffMins)
    else if diffHours < 24 then HoursAgo(diffHours)
    else if diffDays < 7 then DaysAgo(diffDays)
    else OlderDate(date)
  }

  /**
   * The text `formatRelativeTime` returns for each bucket: the count followed by its unit
   * letter. The old-date case is left to `formatDate`, so it has no text here.
   */
  function RelativeTimeText(r: RelativeTime): (text: Option<string>)
    ensures text.Some? <==> !r.OlderDate?
    ensures r == JustNow ==> text == Some("Just now")
    ensures r.MinutesAgo? ==> var t := text.value;
              ParseFloat(t) == Some(r.m as real) && |t| >= 5 && t[|t| - 5..] == "m ago"
    ensures r.HoursAgo? ==> var t := text.value;
              ParseFloat(t) == Some(r.h as real) && |t| >= 5 && t[|t| - 5..] == "h ago"
    ensures r.DaysAgo? ==> var t := text.value;
              ParseFloat(t) == Some(r.d as real) && |t| >= 5 && t[|t| - 5..] == "d ago"
  {
    match r
    case JustNow => Some("Just now")
    case MinutesAgo(m) => ParseFloatOfIntToString(m, "m ago"); Some(IntToString(m) + "m ago")
    case HoursAgo(h) => ParseFloatOfIntToString(h, "h ago"); Some(IntToString(h) + "h ago")
    case DaysAgo(d) => ParseFloatOfIntToString(d, "d ago"); Some(IntToString(d) + "d ago")
    case OlderDate(_) => None
  }

  /** A date in the future (a clock skew) reads "Just now". */
  lemma FutureIsJustNow(date: int, now: int)
    requires date > now
    ensures FormatRelativeTime(date, now) == JustNow
  {
  }

  // ---------------------------------------------------------------- truncate

  /** `truncate(text, maxLength)`. */
  function Truncate(text: string, maxLength: int): (r: string)
    ensures |text| <= maxLength ==> r == text
    ensures |text| > maxLength >= 3 ==> |r| == maxLength && r == text[..maxLength - 3] + "..."
  {
    if |text| <= maxLength then text else Slice(text, 0, maxLength - 3) + "..."
  }

  /** With a limit of 3 or more, the result never exceeds the limit. */
  lemma TruncateFits(text: string, maxLength: int)
    requires maxLength >= 3
    ensures |Truncate(text, maxLength)| <= maxLength
  {
  }

  /**
   * Below 3 the limit does not hold: `slice` reads the negative end index from the back, so
   * truncating "abcdef" to 2 keeps "abcde" and yields eight characters.
   */
  lemma TruncateBelowThree()
    ensures Truncate("abcdef", 2) == "abcde..."
  {
    assert Slice("abcdef", 0, -1) == "abcde";
  }

  // ---------------------------------------------------------------- sanitizeInput

  /** `s.replace(/c/g, rep)`: every occurrence of `c` replaced by `rep`. */
  function ReplaceAll(s: string, c: char, rep: string): (r: string)
    ensures c !in rep ==> c !in r
    ensures forall x :: x in r && x !in rep ==> x in s
    ensures c !in s ==> r == s
  {
    if s == [] then []
    else (if s[0] == c then rep else [s[0]]) + ReplaceAll(s[1..], c, rep)
  }

  /** One character: `c` itself becomes `rep`, any other character stays. */
  lemma ReplaceAllChar(x: char, c: char, rep: string)
    ensures ReplaceAll([x], c, rep) == if x == c then rep else [x]
  {
    assert [x][1..] == [];
  }

  /** The replacement works character by character, so it distributes over concatenation. */
  lemma {:induction false} ReplaceAllConcat(a: string, b: string, c: char, rep: string)
    ensures ReplaceAll(a + b, c, rep) == ReplaceAll(a, c, rep) + ReplaceAll(b, c, rep)
  {
    if a == [] {
      assert a + b == b;
    } else {
      assert (a + b)[0] == a[0] && (a + b)[1..] == a[1..] + b;
      ReplaceAllConcat(a[1..], b, c, rep);
    }
  }

  predicate HtmlSpecial(c: char) {
    c == '<' || c == '>' || c == '"' || c == '\''
  }

  /** None of the four characters `sanitizeInput` escapes occurs in `s`. */
  predicate NoSpecial(s: string) {
    '<' !in s && '>' !in s && '"' !in s && '\'' !in s
  }

  lemma NoSpecialIff(s: string)
    ensures NoSpecial(s) <==> forall i :: 0 <= i < |s| ==> !HtmlSpecial(s[i])
  {
    if !NoSpecial(s) {
      var x :| x in s && HtmlSpecial(x);
      var i :| 0 <= i < |s| && s[i] == x;
    }
  }

  /** The four escapes are made of characters the passes leave alone. */
  lemma EscapesFree()
    ensures NoSpecial("&lt;") && NoSpecial("&gt;") && NoSpecial("&quot;") && NoSpecial("&#039;")
  {
  }

  /** `sanitizeInput`: the four passes for `<`, `>`, `"` and `'`, in that order. */
  function SanitizeInput(input: string): (r: string)
    ensures forall i :: 0 <= i < |r| ==> !HtmlSpecial(r[i])
    ensures (forall i :: 0 <= i < |input| ==> !HtmlSpecial(input[i])) ==> r == input
  {
    var a := ReplaceAll(input, '<', "&lt;");
    var b := ReplaceAll(a, '>', "&gt;");
    var c := ReplaceAll(b, '"', "&quot;");
    var d := ReplaceAll(c, '\'', "&#039;");
    EscapesFree();
    NoSpecialIff(input);
    NoSpecialIff(d);
    d
  }

  /** The entity each character is written as: the four special characters, and the rest as themselves. */
  function Escape(ch: char): (e: string)
    ensures HtmlSpecial(ch) <==> e != [ch]
  {
    match ch
    case '<' => "&lt;"
    case '>' => "&gt;"
    case '"' => "&quot;"
    case '\'' => "&#039;"
    case _ => [ch]
  }

  /** The text with every character written as its entity. */
  function EscapeAll(s: string): string {
    if s == [] then [] else Escape(s[0]) + EscapeAll(s[1..])
  }

  /** The four passes distribute over concatenation. */
  lemma SanitizeConcat(a: string, b: string)
    ensures SanitizeInput(a + b) == SanitizeInput(a) + SanitizeInput(b)
  {
    var a1, b1 := ReplaceAll(a, '<', "&lt;"), ReplaceAll(b, '<', "&lt;");
    ReplaceAllConcat(a, b, '<', "&lt;");
    var a2, b2 := ReplaceAll(a1, '>', "&gt;"), ReplaceAll(b1, '>', "&gt;");
    ReplaceAllConcat(a1, b1, '>', "&gt;");
    var a3, b3 := ReplaceAll(a2, '"', "&quot;"), ReplaceAll(b2, '"', "&quot;");
    ReplaceAllConcat(a2, b2, '"', "&quot;");
    ReplaceAllConcat(a3, b3, '\'', "&#039;");
  }

  /** One character is sanitized into its entity. */
  lemma SanitizeChar(ch: char)
    ensures SanitizeInput([ch]) == Escape(ch)
  {
    EscapesFree();
    ReplaceAllChar(ch, '<', "&lt;");
    var a := ReplaceAll([ch], '<', "&lt;");
    if ch == '<' {
      assert a == "&lt;";
    } else {
      assert a == [ch];
      ReplaceAllChar(ch, '>', "&gt;");
      if ch != '>' {
        ReplaceAllChar(ch, '"', "&quot;");
        if ch != '"' {
          ReplaceAllChar(ch, '\'', "&#039;");
        }
      }
    }
  }

  /** `sanitizeInput` writes every character as its entity, in order. */
  lemma {:induction false} SanitizeIsEscapeAll(s: string)
    ensures SanitizeInput(s) == EscapeAll(s)
  {
    if s == [] {
      assert SanitizeInput(s) == [];
    } else {
      assert s == [s[0]] + s[1..];
      SanitizeConcat([s[0]], s[1..]);
      SanitizeChar(s[0]);
      SanitizeIsEscapeAll(s[1..]);
    }
  }

  /** Escaping is idempotent: `&` is left alone, so a second pass finds nothing to replace. */
  lemma SanitizeIdempotent(input: string)
    ensures SanitizeInput(SanitizeInput(input)) == SanitizeInput(input)
  {
  }

  /** For the same reason the escape cannot be undone: a literal `&lt;` and a `<` escape alike. */
  lemma SanitizeNotInjective()
    ensures SanitizeInput("<") == SanitizeInput("&lt;")
  {
    assert ReplaceAll("<", '<', "&lt;") == "&lt;";
    EscapesFree();
    NoSpecialIff("&lt;");
  }

  // ---------------------------------------------------------------- isValidEmail

  /** The position of the first `c` in `s`, or `|s|`. */
  function IndexOf(s: string, c: char): (i: nat)
    ensures i <= |s|
    ensures i < |s| ==> s[i] == c
    ensures forall k :: 0 <= k < i ==> s[k] != c
  {
    if s == [] then 0 else if s[0] == c then 0 else 1 + IndexOf(s[1..], c)
  }

  predicate EmailChar(c: char) {
    !IsWhiteSpace(c) && c != '@'
  }

  /**
   * `isValidEmail`, read directly: split at the first `@`; the local part is non-empty, no
   * character is white space, no second `@` follows, and the domain has a `.` that is
   * neither its first nor its last character.
   */
  predicate IsValidEmail(email: string)
    ensures IsValidEmail(email) ==> |email| >= 5 && email[0] != '@' && email[|email| - 1] != '@'
  {
    var at := IndexOf(email, '@');
    && 0 < at < |email|
    && (forall k :: 0 <= k < |email| ==> !IsWhiteSpace(email[k]))
    && (forall k :: at < k < |email| ==> email[k] != '@')
    && (exists k :: at + 1 < k < |email| - 1 && email[k] == '.')
  }

  /**
   * One way `/^[^\s@]+@[^\s@]+\.[^\s@]+$/` matches: `@` at `i`, the separating `.` at `j`,
   * each of the three runs non-empty and made of characters other than white space and `@`.
   */
  ghost predicate EmailMatchAt(email: string, i: int, j: int) {
    && 0 < i && i + 1 < j && j + 1 < |email|
    && email[i] == '@' && email[j] == '.'
    && forall k :: 0 <= k < |email| && k != i ==> EmailChar(email[k])
  }

  /** The direct reading agrees with the regular expression on every string, both ways. */
  lemma {:induction false} IsValidEmailMatchesRegex(email: string)
    ensures IsValidEmail(email) <==> exists i, j :: EmailMatchAt(email, i, j)
  {
    var at := IndexOf(email, '@');
    if IsValidEmail(email) {
      var k :| at + 1 < k < |email| - 1 && email[k] == '.';
      assert EmailMatchAt(email, at, k);
    }
    if exists i, j :: EmailMatchAt(email, i, j) {
      var i, j :| EmailMatchAt(email, i, j);
      assert at == i;
      assert at + 1 < j < |email| - 1 && email[j] == '.';
    }
  }

  lemma EmailExamples()
    ensures IsValidEmail("a@b.c")
    ensures !IsValidEmail("a@b")
    ensures !IsValidEmail("@b.c")
    ensures !IsValidEmail("a@.c")
  {
    assert "a@b.c"[3] == '.';
  }

  // ---------------------------------------------------------------- lab status display

  datatype StatusDisplay = StatusDisplay(text: string, className: string)

  /** `getLabStatusDisplay`: the five known statuses, otherwise the status itself unstyled. */
  function GetLabStatusDisplay(status: string): (d: StatusDisplay)
    ensures d.className == "badge-error" <==> status == "critical-low" || status == "critical-high"
    ensures d.className == "badge-warning" <==> status == "abnormal-low" || status == "abnormal-high"
    ensures d.className == "badge-success" <==> status == "normal"
    ensures d.className == "" <==> status !in KnownLabStatuses
    ensures status !in KnownLabStatuses ==> d.text == status
    ensures status == "normal" ==> d.text == "Normal"
    ensures status == "abnormal-low" ==> d.text == "Low"
    ensures status == "abnormal-high" ==> d.text == "High"
    ensures status == "critical-low" ==> d.text == "Critical Low"
    ensures status == "critical-high" ==> d.text == "Critical High"
  {
    if status == "normal" then StatusDisplay("Normal", "badge-success")
    else if status == "abnormal-low" then StatusDisplay("Low", "badge-warning")
    else if status == "abnormal-high" then StatusDisplay("High", "badge-warning")
    else if status == "critical-low" then StatusDisplay("Critical Low", "badge-error")
    else if status == "critical-high" then StatusDisplay("Critical High", "badge-error")
    else StatusDisplay(status, "")
  }

  const KnownLabStatuses: set<string> := {"normal", "abnormal-low", "abnormal-high", "critical-low", "critical-high"}

  // ---------------------------------------------------------------- pseudonymized id

  function Base36Digit(d: nat): (c: char)
    requires d < 36
  {
    if d < 10 then ('0' as int + d) as char else ('a' as int + d - 10) as char
  }

  /** The value of one base-36 digit, in either case. */
  function Base36Value(c: char): Option<nat> {
    if '0' <= c <= '9' then Some(c as int - '0' as int)
    else if 'a' <= c <= 'z' then Some(c as int - 'a' as int + 10)
    else if 'A' <= c <= 'Z' then Some(c as int - 'A' as int + 10)
    else None
  }

  /** `n.toString(36)`. */
  function Base36(n: nat): (r: string)
    ensures r != []
    ensures forall i :: 0 <= i < |r| ==> Base36Value(r[i]).Some? && r[i] != '-'
  {
    if n < 36 then [Base36Digit(n)] else Base36(n / 36) + [Base36Digit(n % 36)]
  }

  /** `parseInt(s, 36)` for a string of base-36 digits. */
  function ParseBase36(s: string): nat
    requires forall i :: 0 <= i < |s| ==> Base36Value(s[i]).Some?
  {
    if s == [] then 0 else 36 * ParseBase36(s[..|s| - 1]) + Base36Value(s[|s| - 1]).value
  }

  lemma {:induction false} ParseBase36OfBase36(n: nat)
    ensures ParseBase36(Base36(n)) == n
  {
    if n >= 36 {
      var r := Base36(n);
      assert r[..|r| - 1] == Base36(n / 36);
      ParseBase36OfBase36(n / 36);
    }
  }

  /** Upper-casing base-36 digits keeps their values. */
  lemma {:induction false} ParseBase36OfUpper(s: string)
    requires forall i :: 0 <= i < |s| ==> Base36Value(s[i]).Some?
    ensures forall i :: 0 <= i < |ToUpper(s)| ==> Base36Value(ToUpper(s)[i]).Some?
    ensures ParseBase36(ToUpper(s)) == ParseBase36(s)
  {
    if s != [] {
      assert ToUpper(s)[..|s| - 1] == ToUpper(s[..|s| - 1]);
      ParseBase36OfUpper(s[..|s| - 1]);
    }
  }

  /**
   * `generatePseudonymizedId` with `Date.now()` as `timestamp` and the text of
   * `Math.random().toString(36)` as `random`: `PAT-<time>-<six random digits>`, upper-cased.
   */
  function GeneratePseudonymizedId(timestamp: nat, random: string): (id: string)
    ensures |id| == 5 + |Base36(timestamp)| + |Substring(random, 2, 8)|
    ensures id[..4] == "PAT-"
    ensures forall i :: 0 <= i < |id| ==> !('a' <= id[i] <= 'z')
    ensures id[4 + |Base36(timestamp)|] == '-'
    ensures id[5 + |Base36(timestamp)|..] == ToUpper(Substring(random, 2, 8))
  {
    var tail := Substring(random, 2, 8);
    var raw := "PAT-" + Base36(timestamp) + "-" + tail;
    var n := 5 + |Base36(timestamp)|;
    assert raw[n..] == tail;
    assert ToUpper(raw)[n..] == ToUpper(raw[n..]);
    ToUpper(raw)
  }

  /** The time segment of an id reads back, in base 36, as the timestamp it was made from. */
  lemma PseudonymizedIdTimestamp(timestamp: nat, random: string)
    ensures var id := GeneratePseudonymizedId(timestamp, random);
            var n := |Base36(timestamp)|;
            && id[4..4 + n] == ToUpper(Base36(timestamp))
            && id[4 + n] == '-'
            && (forall i :: 4 <= i < 4 + n ==> id[i] != '-')
            && ParseBase36(ToUpper(Base36(timestamp))) == timestamp
  {
    var b := Base36(timestamp);
    var id := GeneratePseudonymizedId(timestamp, random);
    var raw := "PAT-" + b + "-" + Substring(random, 2, 8);
    assert raw[4..4 + |b|] == b;
    assert id[4..4 + |b|] == ToUpper(raw[4..4 + |b|]);
    ParseBase36OfUpper(b);
    ParseBase36OfBase36(timestamp);
  }
}
