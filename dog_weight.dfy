/** Standard weights by breed and the weight alert of dog-health-app/app.js.
    Weights are exact reals; the profile's weight goes through `Number(...)`. */
module DogWeight {
  import opened Wrappers
  import opened Text
  import opened Js
  import opened DogRecords

  /** A breed's standard weight range in kilograms. */
  datatype Range = Range(min: real, max: real)

  const StandardWeights: map<string, Range> := map[
    "トイプードル" := Range(3.0, 4.0),
    "チワワ" := Range(1.5, 3.0),
    "ミニチュアダックスフンド" := Range(4.0, 5.0),
    "ミニチュア・ダックスフンド" := Range(4.0, 5.0),
    "ヨークシャーテリア" := Range(2.0, 3.0),
    "ポメラニアン" := Range(1.5, 3.0),
    "マルチーズ" := Range(2.0, 4.0),
    "シー・ズー" := Range(4.0, 7.0),
    "キャバリア" := Range(5.5, 8.0),
    "パピヨン" := Range(3.5, 5.0),
    "ミニチュアピンシャー" := Range(3.5, 5.0),
    "イタリアン・グレーハウンド" := Range(3.0, 5.0),
    "パグ" := Range(6.0, 8.0),
    "狆" := Range(3.0, 6.0),
    "ボストン・テリア" := Range(5.0, 11.0),
    "トイ・マンチェスター・テリア" := Range(2.0, 5.0)
  ]

  /** An alert is raised beyond 20% over the maximum or under the minimum. */
  const DeviationRatio: real := 0.2

  /** Every range in the table is non-empty and positive. */
  lemma StandardWeightsWellFormed()
    ensures forall b | b in StandardWeights :: 0.0 < StandardWeights[b].min <= StandardWeights[b].max
  {
  }

  /** Property names every object literal inherits from `Object.prototype`. */
  const InheritedNames: set<string> := {
    "constructor", "__proto__", "hasOwnProperty", "isPrototypeOf", "propertyIsEnumerable",
    "toLocaleString", "toString", "valueOf",
    "__defineGetter__", "__defineSetter__", "__lookupGetter__", "__lookupSetter__"
  }

  /** What `STANDARD_WEIGHT_BREEDS[name] || null` yields: a table entry, an
      inherited prototype member (a function or object, so truthy), or null. */
  datatype Lookup = Own(range: Range) | Inherited(name: string) | NotFound

  /** `findStandardWeight` as written: the lookup also finds inherited members. */
  function FindStandardWeightAsWritten(breedName: Option<JsValue>): (r: Lookup)
    ensures !Truthy(breedName) || !breedName.value.JStr? ==> r == NotFound
    ensures r.Own? ==> Truthy(breedName) && breedName.value.JStr? && Trim(breedName.value.s) in StandardWeights
                       && r.range == StandardWeights[Trim(breedName.value.s)]
    ensures r.Inherited? <==> Truthy(breedName) && breedName.value.JStr?
                              && Trim(breedName.value.s) !in StandardWeights
                              && Trim(breedName.value.s) in InheritedNames
  {
    if !Truthy(breedName) || !breedName.value.JStr? then NotFound
    else
      var normalized := Trim(breedName.value.s);
      if normalized in StandardWeights then Own(StandardWeights[normalized])
      else if normalized in InheritedNames then Inherited(normalized)
      else NotFound
  }

  /** A breed called "constructor" is not in the table, yet the lookup as
      written returns a non-null value for it, so the weight box shows a
      standard range made of `undefined` instead of "no standard weight". */
  lemma InheritedNameLooksRegistered()
    ensures "constructor" !in StandardWeights
    ensures FindStandardWeightAsWritten(Some(JStr("constructor"))) == Inherited("constructor")
  {
    var name := "constructor";
    assert !IsSpace(name[0]) && !IsSpace(name[|name| - 1]);
    assert LeadingSpace(name) == 0;
    assert name[0..] == name;
    assert TrailingSpace(name) == 0;
    assert Trim(name) == name;
  }

  /** `findStandardWeight` reading own table entries only: null for a
      non-string or empty name, otherwise the entry of the trimmed name. */
  function FindStandardWeight(breedName: Option<JsValue>): (r: Option<Range>)
    ensures r.Some? <==> Truthy(breedName) && breedName.value.JStr? && Trim(breedName.value.s) in StandardWeights
    ensures r.Some? ==> r.value == StandardWeights[Trim(breedName.value.s)] && 0.0 < r.value.min <= r.value.max
  {
    StandardWeightsWellFormed();
    if !Truthy(breedName) || !breedName.value.JStr? then None
    else
      var normalized := Trim(breedName.value.s);
      if normalized in StandardWeights then Some(StandardWeights[normalized]) else None
  }

  /** The corrected lookup agrees with the one as written on every name the
      table holds, and answers null where the latter finds a prototype member. */
  lemma FindStandardWeightAgrees(breedName: Option<JsValue>)
    ensures FindStandardWeightAsWritten(breedName).Own? <==> FindStandardWeight(breedName).Some?
    ensures FindStandardWeight(breedName).Some? ==>
              FindStandardWeightAsWritten(breedName) == Own(FindStandardWeight(breedName).value)
    ensures FindStandardWeightAsWritten(breedName).Inherited? ==> FindStandardWeight(breedName).None?
  {
  }

  /** `getCurrentWeight`: the profile's weight when it is set (neither null
      nor ""), else the newest weight record, else null. */
  function CurrentWeight(profileWeight: Option<JsValue>, records: seq<WeightRecord>, rt: Runtime): (r: Option<Num>)
    ensures !Nullish(profileWeight) && profileWeight != Some(JStr("")) ==> r == Some(ToNumber(profileWeight, rt))
    ensures (Nullish(profileWeight) || profileWeight == Some(JStr(""))) && records != [] ==>
              r == Some(Finite(records[0].weight))
    ensures r.None? <==> (Nullish(profileWeight) || profileWeight == Some(JStr(""))) && records == []
  {
    if !Nullish(profileWeight) && profileWeight != Some(JStr("")) then Some(ToNumber(profileWeight, rt))
    else if |records| > 0 then Some(Finite(records[0].weight))
    else None
  }

  datatype Alert = NoAlert | Over | Under

  /** `currentKg > max * 1.2`; false for NaN. */
  predicate FarAbove(range: Range, kg: Num)
  {
    match kg
    case Finite(x) => x > range.max * (1.0 + DeviationRatio)
    case PosInfinity => true
    case _ => false
  }

  /** `currentKg < min * 0.8`; false for NaN. */
  predicate FarBelow(range: Range, kg: Num)
  {
    match kg
    case Finite(x) => x < range.min * (1.0 - DeviationRatio)
    case NegInfinity => true
    case _ => false
  }

  /** The alert for a known standard and current weight: "over" is tested first. */
  function WeightAlert(range: Range, kg: Num): (a: Alert)
    ensures a == Over <==> FarAbove(range, kg)
    ensures a == Under <==> !FarAbove(range, kg) && FarBelow(range, kg)
  {
    if FarAbove(range, kg) then Over
    else if FarBelow(range, kg) then Under
    else NoAlert
  }

  /** A weight inside a positive standard range never raises an alert. */
  lemma InRangeNoAlert(range: Range, x: real)
    requires 0.0 < range.min <= x <= range.max
    ensures WeightAlert(range, Finite(x)) == NoAlert
  {
    assert range.max * (1.0 + DeviationRatio) >= range.max;
    assert range.min * (1.0 - DeviationRatio) <= range.min;
  }

  /** For a positive, non-empty range the two alerts exclude each other, so
      testing "over" first decides nothing. */
  lemma AlertsExclusive(range: Range, kg: Num)
    requires 0.0 < range.min <= range.max
    ensures !(FarAbove(range, kg) && FarBelow(range, kg))
  {
    assert range.min * (1.0 - DeviationRatio) < range.max * (1.0 + DeviationRatio);
  }

  /** A heavier dog is at least as far above the range. */
  lemma FarAboveMonotone(range: Range, x: real, y: real)
    requires x <= y && FarAbove(range, Finite(x))
    ensures FarAbove(range, Finite(y))
  {
  }

  /** What the standard-weight box shows. `UndefinedRange` is the range line
      built from a prototype member, whose `min` and `max` are `undefined`. */
  datatype WeightBox =
    | NoBreed
    | Unregistered(current: Option<Num>)
    | UndefinedRange(current: Option<Num>)
    | Standard(range: Range, current: Option<Num>, alert: Alert)

  /** `updateStandardWeightBox` as written, for the trimmed profile breed
      (`""` when the profile has none) and the current weight. A prototype
      member passes the `!standard` test; its `undefined` bounds make both
      comparisons false, so no alert is raised. */
  function StandardWeightBoxAsWritten(breed: string, current: Option<Num>): (b: WeightBox)
    ensures breed == "" <==> b == NoBreed
    ensures b.UndefinedRange? <==> breed != "" && Trim(breed) !in StandardWeights && Trim(breed) in InheritedNames
    ensures b.Unregistered? <==> breed != "" && Trim(breed) !in StandardWeights && Trim(breed) !in InheritedNames
    ensures b.Standard? ==> b.range == StandardWeights[Trim(breed)] && b.current == current
    ensures b.Standard? && current.Some? ==> b.alert == WeightAlert(b.range, current.value)
    ensures b.Standard? && current.None? ==> b.alert == NoAlert
  {
    if breed == "" then NoBreed
    else
      match FindStandardWeightAsWritten(Some(JStr(breed)))
      case NotFound => Unregistered(current)
      case Inherited(_) => UndefinedRange(current)
      case Own(range) =>
        Standard(range, current, if current.None? then NoAlert else WeightAlert(range, current.value))
  }

  /** A dog whose breed is recorded as "constructor" gets a standard-weight
      line of `undefined` bounds from the box as written. */
  lemma InheritedBreedShowsUndefinedRange(current: Option<Num>)
    ensures StandardWeightBoxAsWritten("constructor", current) == UndefinedRange(current)
  {
    InheritedNameLooksRegistered();
  }

  /** The box over the corrected lookup: "no standard weight" for every
      breed the table does not hold. */
  function StandardWeightBox(breed: string, current: Option<Num>): (b: WeightBox)
    ensures breed == "" <==> b == NoBreed
    ensures !b.UndefinedRange?
    ensures b.Unregistered? <==> breed != "" && Trim(breed) !in StandardWeights
    ensures b.Standard? ==> b.range == StandardWeights[Trim(breed)] && b.current == current
    ensures b.Standard? && current.Some? ==> b.alert == WeightAlert(b.range, current.value)
    ensures b.Standard? && current.None? ==> b.alert == NoAlert
  {
    if breed == "" then NoBreed
    else
      match FindStandardWeight(Some(JStr(breed)))
      case None => Unregistered(current)
      case Some(range) =>
        Standard(range, current, if current.None? then NoAlert else WeightAlert(range, current.value))
  }

  /** The corrected box differs from the one as written only where the
      latter shows an `undefined` range: there it says "no standard weight". */
  lemma StandardWeightBoxAgrees(breed: string, current: Option<Num>)
    ensures StandardWeightBoxAsWritten(breed, current).UndefinedRange? ==>
              StandardWeightBox(breed, current) == Unregistered(current)
    ensures !StandardWeightBoxAsWritten(breed, current).UndefinedRange? ==>
              StandardWeightBox(breed, current) == StandardWeightBoxAsWritten(breed, current)
  {
    if breed != "" {
      FindStandardWeightAgrees(Some(JStr(breed)));
    }
  }
}
