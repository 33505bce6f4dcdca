/** The record lists of dog-health-app/app.js (weights, vaccinations, vet
    visits, medicines), their add forms and their delete buttons. Dates are
    day numbers; an empty date input is `None`. Each list is read from local
    storage as a fresh array, changed, sorted newest first in place and
    written back; here the stored list is a parameter and the written list
    the result. */
module DogRecords {
  import opened Wrappers
  import opened Text
  import opened Sorting

  datatype WeightRecord = WeightRecord(weight: real, date: int)
  datatype VaccineRecord = VaccineRecord(name: string, date: int, next: Option<int>, notes: string)
  /** `scheduled` is a field the reminders read as a fallback; this code never writes it. */
  datatype VetRecord = VetRecord(date: int, scheduledDate: Option<int>, scheduled: Option<int>,
                                 clinic: string, reason: string, memo: string)
  datatype MedicineRecord = MedicineRecord(name: string, start: int, end: Option<int>, dosage: string, memo: string)

  /** Sort keys of the `save*List` functions. */
  function WeightKey(r: WeightRecord): int { r.date }
  function VaccineKey(r: VaccineRecord): int { r.date }
  /** `a.scheduledDate || a.date`: the booked day when there is one. */
  function VetKey(r: VetRecord): int { r.scheduledDate.GetOr(r.date) }
  function MedicineKey(r: MedicineRecord): int { r.start }

  /** A `save*List` call: the list copied into an array and sorted there. */
  method SaveList<T>(list: seq<T>, key: T -> int) returns (saved: seq<T>)
    ensures NewestFirst(saved, key)
    ensures multiset(saved) == multiset(list)
    ensures NewestFirst(list, key) ==> saved == list
  {
    var a := new T[|list|](i requires 0 <= i < |list| => list[i]);
    assert a[..] == list;
    SortNewestFirst(a, key);
    saved := a[..];
  }

  /** `arr.splice(start, 1)`: removes the element at `start`, counted from
      the end when negative; a start past either end is clamped. */
  function SpliceOne<T>(s: seq<T>, start: int): (r: seq<T>)
    ensures |r| == if s == [] || start >= |s| then |s| else |s| - 1
    ensures 0 <= start < |s| ==> r == s[..start] + s[start + 1..]
    ensures start >= |s| ==> r == s
    ensures start < 0 && 0 <= |s| + start ==> r == s[..|s| + start] + s[|s| + start + 1..]
    ensures start < 0 && |s| + start < 0 && s != [] ==> r == s[1..]
  {
    var k := if start < 0 then (if |s| + start < 0 then 0 else |s| + start)
             else (if start > |s| then |s| else start);
    if k < |s| then s[..k] + s[k + 1..] else s
  }

  /** Removing the element at a valid index removes exactly one copy of it. */
  lemma SpliceOneRemoves<T>(s: seq<T>, i: nat)
    requires i < |s|
    ensures multiset(SpliceOne(s, i)) == multiset(s) - multiset{s[i]}
  {
    assert s == s[..i] + [s[i]] + s[i + 1..];
  }

  /** The delete button of item `index`: splice it out, then save. */
  method DeleteAt<T>(list: seq<T>, index: int, key: T -> int) returns (saved: seq<T>)
    ensures NewestFirst(saved, key)
    ensures 0 <= index < |list| ==> multiset(saved) == multiset(list) - multiset{list[index]}
    ensures index >= |list| ==> multiset(saved) == multiset(list)
  {
    if 0 <= index < |list| {
      SpliceOneRemoves(list, index);
    }
    saved := SaveList(SpliceOne(list, index), key);
  }

  /** Weight form: rejected unless both a date and a number were entered. */
  method AddWeight(list: seq<WeightRecord>, value: Option<real>, date: Option<int>)
    returns (saved: Option<seq<WeightRecord>>)
    ensures saved.None? <==> value.None? || date.None?
    ensures saved.Some? ==> NewestFirst(saved.value, WeightKey)
                            && multiset(saved.value) == multiset(list) + multiset{WeightRecord(value.value, date.value)}
  {
    if date.None? || value.None? {
      return None;
    }
    var s := SaveList(list + [WeightRecord(value.value, date.value)], WeightKey);
    saved := Some(s);
  }

  /** Vaccination form: rejected without a (trimmed) name or a date. */
  method AddVaccine(list: seq<VaccineRecord>, name: string, date: Option<int>, next: Option<int>, notes: string)
    returns (saved: Option<seq<VaccineRecord>>)
    ensures saved.None? <==> Trim(name) == "" || date.None?
    ensures saved.Some? ==> NewestFirst(saved.value, VaccineKey)
                            && multiset(saved.value)
                               == multiset(list) + multiset{VaccineRecord(Trim(name), date.value, next, Trim(notes))}
  {
    var n := Trim(name);
    if n == "" || date.None? {
      return None;
    }
    var s := SaveList(list + [VaccineRecord(n, date.value, next, Trim(notes))], VaccineKey);
    saved := Some(s);
  }

  /** The record the vet form stores: `date || scheduledDate` as the visit
      date, so a stored record always has one. */
  function NewVetRecord(date: Option<int>, scheduled: Option<int>, clinic: string, reason: string, memo: string)
    : (r: Option<VetRecord>)
    ensures r.None? <==> date.None? && scheduled.None?
    ensures r.Some? ==> r.value.date == (if date.Some? then date.value else scheduled.value)
                        && r.value.scheduledDate == scheduled && r.value.scheduled.None?
    ensures r.Some? && scheduled.Some? ==> VetKey(r.value) == scheduled.value
  {
    if date.None? && scheduled.None? then None
    else Some(VetRecord(if date.Some? then date.value else scheduled.value, scheduled, None,
                        Trim(clinic), Trim(reason), Trim(memo)))
  }

  /** Vet form: rejected (with an alert) when neither day was entered. */
  method AddVet(list: seq<VetRecord>, date: Option<int>, scheduled: Option<int>,
                clinic: string, reason: string, memo: string)
    returns (saved: Option<seq<VetRecord>>)
    ensures saved.None? <==> date.None? && scheduled.None?
    ensures saved.Some? ==> NewestFirst(saved.value, VetKey)
                            && multiset(saved.value)
                               == multiset(list) + multiset{NewVetRecord(date, scheduled, clinic, reason, memo).value}
  {
    var r := NewVetRecord(date, scheduled, clinic, reason, memo);
    if r.None? {
      return None;
    }
    var s := SaveList(list + [r.value], VetKey);
    saved := Some(s);
  }

  /** Medicine form: rejected without a (trimmed) name or a start day. */
  method AddMedicine(list: seq<MedicineRecord>, name: string, start: Option<int>, end: Option<int>,
                     dosage: string, memo: string)
    returns (saved: Option<seq<MedicineRecord>>)
    ensures saved.None? <==> Trim(name) == "" || start.None?
    ensures saved.Some? ==> NewestFirst(saved.value, MedicineKey)
                            && multiset(saved.value)
                               == multiset(list) + multiset{MedicineRecord(Trim(name), start.value, end, Trim(dosage), Trim(memo))}
  {
    var n := Trim(name);
    if n == "" || start.None? {
      return None;
    }
    var s := SaveList(list + [MedicineRecord(n, start.value, end, Trim(dosage), Trim(memo))], MedicineKey);
    saved := Some(s);
  }
}
