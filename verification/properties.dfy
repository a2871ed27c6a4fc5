/** The `elector.*` configuration record: three required strings and three
    durations with defaults, checked by Bean Validation (`@NotBlank` on the
    strings, `@NotNull` on the durations) before the service starts. */
module Properties {
  import opened Wrappers

  /** The nanosecond part of a `java.time.Duration`. */
  type Nanos = n: int | 0 <= n < 1_000_000_000

  /** A `java.time.Duration` as Java stores it: whole seconds, which may be
      negative (`getSeconds()`), plus a non-negative nanosecond adjustment.
      Zero, sub-second and negative durations are all representable. */
  datatype Duration = Duration(seconds: int, nanos: Nanos)

  /** `Duration.ofSeconds(n)`. */
  function OfSeconds(n: int): Duration {
    Duration(n, 0)
  }

  /** The six bound properties; `None` is a Java `null`. */
  datatype Props = Props(
    labelKey: Option<string>,
    lockName: Option<string>,
    appName: Option<string>,
    leaseDuration: Option<Duration>,
    renewDeadline: Option<Duration>,
    retryPeriod: Option<Duration>)

  /** The property paths a constraint violation can name. */
  datatype Field = LabelKey | LockName | AppName | LeaseDuration | RenewDeadline | RetryPeriod

  /** A value as a getter returns it: a string property or a duration property. */
  datatype Value = Text(text: Option<string>) | Span(span: Option<Duration>)

  const DefaultLeaseDuration: Duration := OfSeconds(120)
  const DefaultRenewDeadline: Duration := OfSeconds(60)
  const DefaultRetryPeriod: Duration := OfSeconds(5)

  /** A freshly constructed record: strings unset, durations at their defaults. */
  function Defaults(): (p: Props)
    ensures p.labelKey.None? && p.lockName.None? && p.appName.None?
    ensures p.leaseDuration == Some(Duration(120, 0))
    ensures p.renewDeadline == Some(Duration(60, 0))
    ensures p.retryPeriod == Some(Duration(5, 0))
  {
    Props(None, None, None, Some(DefaultLeaseDuration), Some(DefaultRenewDeadline), Some(DefaultRetryPeriod))
  }

  /** Whether a field holds a string (as opposed to a duration). */
  predicate IsText(f: Field) {
    f == LabelKey || f == LockName || f == AppName
  }

  predicate Fits(f: Field, v: Value) {
    if IsText(f) then v.Text? else v.Span?
  }

  /** The Lombok getter of field `f`. */
  function Get(p: Props, f: Field): (v: Value)
    ensures Fits(f, v)
  {
    match f
    case LabelKey => Text(p.labelKey)
    case LockName => Text(p.lockName)
    case AppName => Text(p.appName)
    case LeaseDuration => Span(p.leaseDuration)
    case RenewDeadline => Span(p.renewDeadline)
    case RetryPeriod => Span(p.retryPeriod)
  }

  /** The Lombok setter of field `f`; the value must have the field's type,
      as the Java compiler demands. Reading the field back gives the value
      set, and every other field reads as before. */
  function Set(p: Props, f: Field, v: Value): (r: Props)
    requires Fits(f, v)
    ensures Get(r, f) == v
    ensures forall g :: g != f ==> Get(r, g) == Get(p, g)
  {
    match f
    case LabelKey => p.(labelKey := v.text)
    case LockName => p.(lockName := v.text)
    case AppName => p.(appName := v.text)
    case LeaseDuration => p.(leaseDuration := v.span)
    case RenewDeadline => p.(renewDeadline := v.span)
    case RetryPeriod => p.(retryPeriod := v.span)
  }

  /** Setting a property twice keeps only the second value, and setters of
      different properties do not interfere, whichever runs first. */
  lemma SetLastWins(p: Props, f: Field, v: Value, v2: Value, g: Field, u: Value)
    requires Fits(f, v) && Fits(f, v2) && Fits(g, u)
    ensures Set(Set(p, f, v), f, v2) == Set(p, f, v2)
    ensures g != f ==> Set(Set(p, f, v), g, u) == Set(Set(p, g, u), f, v)
  {
  }

  /** `String.trim()` removes every character at or below U+0020, and the
      `@NotBlank` validator rejects a string whose trimmed form is empty. */
  predicate TrimRemoves(c: char) {
    c <= ' '
  }

  predicate Blank(s: string) {
    forall i :: 0 <= i < |s| ==> TrimRemoves(s[i])
  }

  /** `@NotBlank`: the value is non-null and has a character `trim()` keeps. */
  predicate NotBlank(s: Option<string>) {
    s.Some? && !Blank(s.value)
  }

  /** `@NotNull`: any duration passes, zero and negative ones included. */
  predicate NotNull(d: Option<Duration>) {
    d.Some?
  }

  /** The constraint on one field, read through its getter. */
  predicate Violates(p: Props, f: Field) {
    match Get(p, f)
    case Text(s) => !NotBlank(s)
    case Span(d) => !NotNull(d)
  }

  /** `validator.validate(properties)`, reduced to the property paths of the
      violations it reports. */
  function Validate(p: Props): (v: set<Field>)
    ensures forall f :: f in v <==> Violates(p, f)
  {
    (if NotBlank(p.labelKey) then {} else {LabelKey})
    + (if NotBlank(p.lockName) then {} else {LockName})
    + (if NotBlank(p.appName) then {} else {AppName})
    + (if NotNull(p.leaseDuration) then {} else {LeaseDuration})
    + (if NotNull(p.renewDeadline) then {} else {RenewDeadline})
    + (if NotNull(p.retryPeriod) then {} else {RetryPeriod})
  }

  predicate Valid(p: Props) {
    Validate(p) == {}
  }

  /** Each string field is reported when it is null, empty, or made only of
      characters `trim()` removes; each duration is reported when null. */
  lemma ViolationCases(p: Props)
    ensures p.labelKey.None? || (p.labelKey.Some? && Blank(p.labelKey.value)) <==> LabelKey in Validate(p)
    ensures p.lockName.None? || (p.lockName.Some? && Blank(p.lockName.value)) <==> LockName in Validate(p)
    ensures p.appName.None? || (p.appName.Some? && Blank(p.appName.value)) <==> AppName in Validate(p)
    ensures p.leaseDuration.None? <==> LeaseDuration in Validate(p)
    ensures p.renewDeadline.None? <==> RenewDeadline in Validate(p)
    ensures p.retryPeriod.None? <==> RetryPeriod in Validate(p)
  {
  }

  /** Whether a field is reported depends on that field alone: setting one
      property can change the verdict on that property only. */
  lemma ValidationIsPerField(p: Props, f: Field, v: Value)
    requires Fits(f, v)
    ensures Validate(Set(p, f, v)) - {f} == Validate(p) - {f}
  {
  }

  /** A default record with three non-blank strings is valid; the defaults
      alone leave exactly the three strings to report. */
  lemma DefaultsNeedOnlyTheStrings(labelKey: string, lockName: string, appName: string)
    requires !Blank(labelKey) && !Blank(lockName) && !Blank(appName)
    ensures Validate(Defaults()) == {LabelKey, LockName, AppName}
    ensures Valid(Defaults().(labelKey := Some(labelKey), lockName := Some(lockName), appName := Some(appName)))
  {
  }

  /** The configuration the service reads once validation has passed. */
  datatype Config = Config(
    labelKey: string,
    lockName: string,
    appName: string,
    leaseDuration: Duration,
    renewDeadline: Duration,
    retryPeriod: Duration)

  /** Binding succeeds exactly for valid records, and then carries their values. */
  function Bind(p: Props): (r: Option<Config>)
    ensures r.Some? <==> Validate(p) == {}
    ensures r.Some? ==> Some(r.value.lockName) == p.lockName && Some(r.value.labelKey) == p.labelKey
                        && Some(r.value.appName) == p.appName
                        && Some(r.value.leaseDuration) == p.leaseDuration
                        && Some(r.value.renewDeadline) == p.renewDeadline
                        && Some(r.value.retryPeriod) == p.retryPeriod
  {
    if Validate(p) == {} then
      assert Violates(p, LabelKey) == false;
      Some(Config(p.labelKey.value, p.lockName.value, p.appName.value,
                  p.leaseDuration.value, p.renewDeadline.value, p.retryPeriod.value))
    else None
  }

  /** Nothing relates the durations to each other or bounds them: with three
      non-blank strings, every choice of non-null durations binds, a renew
      deadline longer than the lease, zero or negative ones included. */
  lemma NoDurationOrdering(labelKey: string, lockName: string, appName: string,
                           lease: Duration, renew: Duration, retry: Duration)
    requires !Blank(labelKey) && !Blank(lockName) && !Blank(appName)
    ensures Bind(Props(Some(labelKey), Some(lockName), Some(appName), Some(lease), Some(renew), Some(retry))).Some?
  {
  }
}
