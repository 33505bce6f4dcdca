/** The announcement reminders of dog-health-app/app.js: vet bookings due
    within three days and vaccinations due in 25 to 35 days. Both walk the
    stored list once and push a reminder for each qualifying entry. `today`
    and all dates are day numbers. */
module DogReminders {
  import opened Wrappers
  import opened DogRecords

  const VetWindowDays: int := 3
  const VaccineWindowFirst: int := 25
  const VaccineWindowLast: int := 35

  datatype VetReminder = VetReminder(date: int, clinic: string, reason: string, diffDays: int)
  datatype VaccineReminder = VaccineReminder(name: string, date: int, diffDays: int)

  /** `v.scheduledDate || v.scheduled`: the booked day, falling back to the `scheduled` field,
      which is read but never written by this code. */
  function ScheduledDay(v: VetRecord): Option<int>
  {
    if v.scheduledDate.Some? then v.scheduledDate else v.scheduled
  }

  /** The reminders one vet record contributes: one when its booking is 0 to 3 days ahead. */
  function VetReminderFor(v: VetRecord, today: int): (r: seq<VetReminder>)
    ensures |r| <= 1
    ensures |r| == 1 <==> ScheduledDay(v).Some? && 0 <= ScheduledDay(v).value - today <= VetWindowDays
    ensures |r| == 1 ==> r[0].date == ScheduledDay(v).value && r[0].diffDays == ScheduledDay(v).value - today
                         && r[0].clinic == v.clinic && r[0].reason == v.reason
  {
    match ScheduledDay(v)
    case None => []
    case Some(d) =>
      if d < today then []
      else if d - today <= VetWindowDays then [VetReminder(d, v.clinic, v.reason, d - today)]
      else []
  }

  /** The reminders of a whole list, in list order. */
  function VetReminders(list: seq<VetRecord>, today: int): (r: seq<VetReminder>)
    ensures |r| <= |list|
  {
    if list == [] then []
    else VetReminders(list[..|list| - 1], today) + VetReminderFor(list[|list| - 1], today)
  }

  /** `getVetReminders`. */
  method GetVetReminders(list: seq<VetRecord>, today: int) returns (reminders: seq<VetReminder>)
    ensures reminders == VetReminders(list, today)
  {
    reminders := [];
    var i := 0;
    while i < |list|
      invariant 0 <= i <= |list|
      invariant reminders == VetReminders(list[..i], today)
    {
      assert list[..i + 1][..i] == list[..i];
      reminders := reminders + VetReminderFor(list[i], today);
      i := i + 1;
    }
    assert list[..|list|] == list;
  }

  /** The reminders of two lists joined are those of the first, then those of the second. */
  lemma {:induction false} VetRemindersAppend(a: seq<VetRecord>, b: seq<VetRecord>, today: int)
    ensures VetReminders(a + b, today) == VetReminders(a, today) + VetReminders(b, today)
    decreases |b|
  {
    if b == [] {
      assert a + b == a;
    } else {
      var b' := b[..|b| - 1];
      assert (a + b)[..|a + b| - 1] == a + b';
      VetRemindersAppend(a, b', today);
    }
  }

  /** A reminder is issued exactly for the records whose booking is 0 to 3 days ahead. */
  lemma {:induction false} VetRemindersExactly(list: seq<VetRecord>, today: int, k: VetReminder)
    ensures k in VetReminders(list, today) <==>
              exists i | 0 <= i < |list| :: VetReminderFor(list[i], today) == [k]
    decreases |list|
  {
    if list != [] {
      var init := list[..|list| - 1];
      VetRemindersExactly(init, today, k);
      var last := VetReminderFor(list[|list| - 1], today);
      if k in VetReminders(list, today) {
        if k in VetReminders(init, today) {
          var i :| 0 <= i < |init| && VetReminderFor(init[i], today) == [k];
          assert list[i] == init[i];
        } else {
          assert k in last;
          assert last == [k];
        }
      } else {
        forall i | 0 <= i < |list|
          ensures VetReminderFor(list[i], today) != [k]
        {
          if i < |init| {
            assert list[i] == init[i];
          }
        }
      }
    }
  }

  /** Every vet reminder is for a booking 0 to 3 days ahead. */
  lemma {:induction false} VetRemindersInWindow(list: seq<VetRecord>, today: int)
    ensures forall k | k in VetReminders(list, today) :: 0 <= k.diffDays <= VetWindowDays && k.diffDays == k.date - today
    decreases |list|
  {
    if list != [] {
      VetRemindersInWindow(list[..|list| - 1], today);
    }
  }

  /** The reminders one vaccination contributes: one when its next dose is 25 to 35 days ahead. */
  function VaccineReminderFor(v: VaccineRecord, today: int): (r: seq<VaccineReminder>)
    ensures |r| <= 1
    ensures |r| == 1 <==> v.next.Some? && VaccineWindowFirst <= v.next.value - today <= VaccineWindowLast
    ensures |r| == 1 ==> r[0] == VaccineReminder(v.name, v.next.value, v.next.value - today)
  {
    match v.next
    case None => []
    case Some(d) =>
      if d < today then []
      else if VaccineWindowFirst <= d - today <= VaccineWindowLast then [VaccineReminder(v.name, d, d - today)]
      else []
  }

  function VaccineReminders(list: seq<VaccineRecord>, today: int): (r: seq<VaccineReminder>)
    ensures |r| <= |list|
  {
    if list == [] then []
    else VaccineReminders(list[..|list| - 1], today) + VaccineReminderFor(list[|list| - 1], today)
  }

  /** `getVaccineReminders`. */
  method GetVaccineReminders(list: seq<VaccineRecord>, today: int) returns (reminders: seq<VaccineReminder>)
    ensures reminders == VaccineReminders(list, today)
  {
    reminders := [];
    var i := 0;
    while i < |list|
      invariant 0 <= i <= |list|
      invariant reminders == VaccineReminders(list[..i], today)
    {
      assert list[..i + 1][..i] == list[..i];
      reminders := reminders + VaccineReminderFor(list[i], today);
      i := i + 1;
    }
    assert list[..|list|] == list;
  }

  lemma {:induction false} VaccineRemindersAppend(a: seq<VaccineRecord>, b: seq<VaccineRecord>, today: int)
    ensures VaccineReminders(a + b, today) == VaccineReminders(a, today) + VaccineReminders(b, today)
    decreases |b|
  {
    if b == [] {
      assert a + b == a;
    } else {
      var b' := b[..|b| - 1];
      assert (a + b)[..|a + b| - 1] == a + b';
      VaccineRemindersAppend(a, b', today);
    }
  }

  /** A reminder is issued exactly for the vaccinations due 25 to 35 days ahead. */
  lemma {:induction false} VaccineRemindersExactly(list: seq<VaccineRecord>, today: int, k: VaccineReminder)
    ensures k in VaccineReminders(list, today) <==>
              exists i | 0 <= i < |list| :: VaccineReminderFor(list[i], today) == [k]
    decreases |list|
  {
    if list != [] {
      var init := list[..|list| - 1];
      VaccineRemindersExactly(init, today, k);
      var last := VaccineReminderFor(list[|list| - 1], today);
      if k in VaccineReminders(list, today) {
        if k in VaccineReminders(init, today) {
          var i :| 0 <= i < |init| && VaccineReminderFor(init[i], today) == [k];
          assert list[i] == init[i];
        } else {
          assert k in last;
          assert last == [k];
        }
      } else {
        forall i | 0 <= i < |list|
          ensures VaccineReminderFor(list[i], today) != [k]
        {
          if i < |init| {
            assert list[i] == init[i];
          }
        }
      }
    }
  }

  lemma {:induction false} VaccineRemindersInWindow(list: seq<VaccineRecord>, today: int)
    ensures forall k | k in VaccineReminders(list, today) ::
              VaccineWindowFirst <= k.diffDays <= VaccineWindowLast && k.diffDays == k.date - today
    decreases |list|
  {
    if list != [] {
      VaccineRemindersInWindow(list[..|list| - 1], today);
    }
  }
}
