/** The two custom validators of the default schema: password confirmation, and the
    minimum age computed from a date of birth. */
module CustomValidators {
  import opened FormValues

  const PasswordMismatch: string := "Passwords do not match"
  const InvalidDate: string := "Invalid date"
  const Underage: string := "Must be at least 18 years old"
  const MinimumAge: int := 18

  /** A calendar date as the `Date` getters report it in local time: the full
      year, the month and the day of the month. Only differences of months and
      comparisons of days are used, so the month numbering does not matter. */
  datatype Date = Date(year: int, month: int, day: int)

  /** Lexicographic order on (year, month, day). */
  predicate OnOrBefore(a: Date, b: Date) {
    || a.year < b.year
    || (a.year == b.year && a.month < b.month)
    || (a.year == b.year && a.month == b.month && a.day <= b.day)
  }

  /** The `n`-th birthday of someone born on `birth`. */
  function Anniversary(birth: Date, n: int): Date {
    Date(birth.year + n, birth.month, birth.day)
  }

  /** The confirmation field's validator: an error iff both the value and the
      `password` entry are truthy and differ (strict equality). */
  function ConfirmPassword(data: FormData, v: Value): (r: Option<string>)
    ensures r == None || r == Some(PasswordMismatch)
  {
    var password := Get(data, "password");
    if Truthy(v) && Truthy(password) && v != password then Some(PasswordMismatch) else None
  }

  /** A confirmation equal to the current password is always accepted, and so is
      any confirmation while no password has been typed. */
  lemma ConfirmationAccepted(data: FormData, v: Value)
    requires v == Get(data, "password") || !Truthy(Get(data, "password"))
    ensures ConfirmPassword(data, v) == None
  {
  }

  /** For text entries, as the change handler stores them: a non-empty
      confirmation that differs from a non-empty password is rejected, and any
      other pair of texts is accepted. */
  lemma ConfirmationOfTexts(data: FormData, s: string, p: string)
    requires Get(data, "password") == Str(p)
    ensures ConfirmPassword(data, Str(s)) == Some(PasswordMismatch) <==> s != "" && p != "" && s != p
  {
  }

  /** Whole years between `birth` and `today`: the difference of the years, less
      one while this year's birthday is still to come. */
  function AgeInYears(birth: Date, today: Date): int {
    var age := today.year - birth.year;
    var monthDiff := today.month - birth.month;
    if monthDiff < 0 || (monthDiff == 0 && today.day < birth.day) then age - 1 else age
  }

  /** Someone is at least `n` years old exactly when their `n`-th birthday is on
      or before today. */
  lemma AgeReached(birth: Date, today: Date, n: int)
    ensures AgeInYears(birth, today) >= n <==> OnOrBefore(Anniversary(birth, n), today)
  {
  }

  /** The date-of-birth validator. `parse` stands for `new Date(text)` followed by
      the NaN test (`None` is an invalid date); `today` is the current date. */
  function DobValidator(parse: string -> Option<Date>, today: Date, v: Value): Option<string> {
    if !Truthy(v) then None
    else
      match parse(ToJsString(v) + "T00:00:00")
      case None => Some(InvalidDate)
      case Some(birth) => if AgeInYears(birth, today) < MinimumAge then Some(Underage) else None
  }

  /** The validator's whole behaviour: nothing for a falsy value, "Invalid date"
      when the text does not parse, and otherwise an error exactly when the 18th
      birthday is still in the future. */
  lemma DobVerdict(parse: string -> Option<Date>, today: Date, v: Value)
    ensures !Truthy(v) ==> DobValidator(parse, today, v) == None
    ensures Truthy(v) && parse(ToJsString(v) + "T00:00:00") == None ==>
      DobValidator(parse, today, v) == Some(InvalidDate)
    ensures Truthy(v) && parse(ToJsString(v) + "T00:00:00").Some? ==>
      var birth := parse(ToJsString(v) + "T00:00:00").value;
      && (DobValidator(parse, today, v) == None <==> OnOrBefore(Anniversary(birth, MinimumAge), today))
      && (DobValidator(parse, today, v) == Some(Underage) <==> !OnOrBefore(Anniversary(birth, MinimumAge), today))
  {
    if Truthy(v) && parse(ToJsString(v) + "T00:00:00").Some? {
      AgeReached(parse(ToJsString(v) + "T00:00:00").value, today, MinimumAge);
    }
  }

  /** Born exactly 18 years before today: accepted. */
  lemma EighteenTodayAccepted(parse: string -> Option<Date>, today: Date, v: Value)
    requires Truthy(v) && parse(ToJsString(v) + "T00:00:00") == Some(Anniversary(today, -MinimumAge))
    ensures DobValidator(parse, today, v) == None
  {
  }

  /** Eighteenth birthday on the next day of the same month: rejected, one day
      short. */
  lemma OneDayShortRejected(parse: string -> Option<Date>, today: Date, v: Value)
    requires Truthy(v)
    requires parse(ToJsString(v) + "T00:00:00") == Some(Date(today.year - MinimumAge, today.month, today.day + 1))
    ensures DobValidator(parse, today, v) == Some(Underage)
  {
  }
}
