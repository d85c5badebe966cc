// The client helper that attaches the caller's timezone to the variables
// of a GraphQL operation (shared/time/index.ts). The variables object is
// a map from property names to JavaScript values; an absent property reads
// as `undefined`. What the Intl API reports for the device is a parameter.

module SharedTime {
  import opened Common

  /// A JavaScript value as far as `??` and `typeof` look at it.
  datatype JsValue = Undefined | Null | Str(s: string) | Other

  predicate Nullish(v: JsValue) { v.Undefined? || v.Null? }

  /// What `Intl.DateTimeFormat().resolvedOptions().timeZone` does on the
  /// device: it throws, or it yields a value.
  datatype DeviceZone = Throws | Resolved(timeZone: JsValue)

  const Utc := "UTC"
  const TimezoneKey := "timezone"

  /// `getIanaTimezone`: the device's zone when it is a non-empty string,
  /// "UTC" otherwise.
  function GetIanaTimezone(device: DeviceZone): (r: string)
    ensures |r| > 0
    ensures device.Resolved? && device.timeZone.Str? && |device.timeZone.s| > 0 ==> r == device.timeZone.s
    ensures !(device.Resolved? && device.timeZone.Str? && |device.timeZone.s| > 0) ==> r == Utc
  {
    match device
    case Resolved(Str(tz)) => if |tz| > 0 then tz else Utc
    case _ => Utc
  }

  /// `variables.timezone`, `undefined` when the property is absent.
  function Property(variables: map<string, JsValue>, key: string): JsValue
  {
    if key in variables then variables[key] else Undefined
  }

  /// `withTimezone(variables, timezone)`: a new object with every property
  /// of `variables` and a `timezone` property that is the explicit argument
  /// when given (even an empty one), else the existing property when it is
  /// not `null`/`undefined`, else the device's zone. An omitted `variables`
  /// (None) is the empty object.
  function WithTimezone(variables: Option<map<string, JsValue>>, timezone: Option<string>, device: DeviceZone)
    : (r: map<string, JsValue>)
    ensures r.Keys == variables.UnwrapOr(map[]).Keys + {TimezoneKey}
    ensures forall k :: k in variables.UnwrapOr(map[]) && k != TimezoneKey ==> r[k] == variables.value[k]
    ensures !Nullish(r[TimezoneKey])
    ensures timezone.Some? ==> r[TimezoneKey] == Str(timezone.value)
    ensures timezone.None? && variables.Some? && !Nullish(Property(variables.value, TimezoneKey)) ==>
              r[TimezoneKey] == variables.value[TimezoneKey]
    ensures timezone.None? && (variables.None? || Nullish(Property(variables.value, TimezoneKey))) ==>
              r[TimezoneKey] == Str(GetIanaTimezone(device))
  {
    var vars := variables.UnwrapOr(map[]);
    var existing := Property(vars, TimezoneKey);
    var tz :=
      if timezone.Some? then Str(timezone.value)
      else if !Nullish(existing) then existing
      else Str(GetIanaTimezone(device));
    vars[TimezoneKey := tz]
  }

  // ---------------------------------------------------------------------
  // Properties
  // ---------------------------------------------------------------------

  /// Without an explicit timezone a second merge keeps the first one's
  /// timezone, whatever the device reports by then.
  lemma MergeTwiceKeeps(variables: Option<map<string, JsValue>>, d1: DeviceZone, d2: DeviceZone)
    ensures var once := WithTimezone(variables, None, d1);
            WithTimezone(Some(once), None, d2) == once
  {
    var once := WithTimezone(variables, None, d1);
    assert once[TimezoneKey := once[TimezoneKey]] == once;
  }

  /// An explicit timezone overrides whatever an earlier merge attached.
  lemma ExplicitOverrides(variables: Option<map<string, JsValue>>, t1: Option<string>, t2: string, d1: DeviceZone, d2: DeviceZone)
    ensures WithTimezone(Some(WithTimezone(variables, t1, d1)), Some(t2), d2) == WithTimezone(variables, Some(t2), d2)
  {
    var vars := variables.UnwrapOr(map[]);
    var once := WithTimezone(variables, t1, d1);
    assert once == vars[TimezoneKey := once[TimezoneKey]];
    assert once[TimezoneKey := Str(t2)] == vars[TimezoneKey := Str(t2)];
  }

  /// The merge only adds or replaces `timezone`: removing it again gives
  /// the input without its own `timezone`.
  lemma OnlyTimezoneChanges(variables: map<string, JsValue>, timezone: Option<string>, device: DeviceZone)
    ensures WithTimezone(Some(variables), timezone, device) - {TimezoneKey} == variables - {TimezoneKey}
  {
  }
}
