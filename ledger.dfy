/** The slot ledger: a doctor's `slotsBooked` map from date to the list of
    time labels taken on that date, and the two edits the user controller
    makes to it (the push of a booking, the filter of a cancellation). */
module Ledger {
  import opened Types

  type Slots = map<Date, seq<Time>>

  /** The booking guard: the date has an entry and its list includes the time. */
  predicate Booked(slots: Slots, date: Date, time: Time)
  {
    date in slots && time in slots[date]
  }

  /** No time label occurs twice in one date's list. */
  predicate Distinct(s: seq<Time>)
  {
    forall i, j :: 0 <= i < j < |s| ==> s[i] != s[j]
  }

  /** Every date's list of every doctor is free of repeats. */
  predicate NoDoubleBooking(doctors: map<DoctorId, Doctor>)
  {
    forall d, date :: d in doctors && date in doctors[d].slotsBooked ==> Distinct(doctors[d].slotsBooked[date])
  }

  /** The booking edit: append the time to the date's list, starting from an
      empty list when the date has no entry. */
  function Push(slots: Slots, date: Date, time: Time): Slots
  {
    slots[date := (if date in slots then slots[date] else []) + [time]]
  }

  /** The cancellation filter: the list without any occurrence of `t`, the
      other labels kept in their order. */
  function Without(s: seq<Time>, t: Time): (r: seq<Time>)
    ensures forall x :: x in r <==> x in s && x != t
    ensures |r| <= |s|
  {
    if s == [] then [] else (if s[0] == t then [] else [s[0]]) + Without(s[1..], t)
  }

  /** The cancellation edit; the date must have an entry (the source reads the
      entry without checking, and the caller handles its absence). */
  function Release(slots: Slots, date: Date, time: Time): Slots
    requires date in slots
  {
    slots[date := Without(slots[date], time)]
  }

  /** The doctor directory after a booking for `docId`. */
  function ReserveIn(doctors: map<DoctorId, Doctor>, docId: DoctorId, date: Date, time: Time): map<DoctorId, Doctor>
    requires docId in doctors
  {
    doctors[docId := doctors[docId].(slotsBooked := Push(doctors[docId].slotsBooked, date, time))]
  }

  /** A release of `date` for `docId` finds both the doctor and the entry. */
  predicate CanRelease(doctors: map<DoctorId, Doctor>, docId: DoctorId, date: Date)
  {
    docId in doctors && date in doctors[docId].slotsBooked
  }

  /** The doctor directory after a cancellation releases a slot of `docId`. */
  function ReleaseIn(doctors: map<DoctorId, Doctor>, docId: DoctorId, date: Date, time: Time): map<DoctorId, Doctor>
    requires CanRelease(doctors, docId, date)
  {
    doctors[docId := doctors[docId].(slotsBooked := Release(doctors[docId].slotsBooked, date, time))]
  }

  /** How many times `t` occurs in `s`. */
  function Count(s: seq<Time>, t: Time): nat
  {
    multiset(s)[t]
  }

  // ---------------------------------------------------------------------------
  // Booking

  /** A booking adds exactly one occurrence of the time to the date's list, takes
      the slot, creates the entry as `[time]` when it was absent, and leaves
      every other date as it was. */
  lemma PushAppendsOne(slots: Slots, date: Date, time: Time)
    ensures var r := Push(slots, date, time);
      && r.Keys == slots.Keys + {date}
      && Booked(r, date, time)
      && (date !in slots ==> r[date] == [time])
      && (date in slots ==> r[date][..|slots[date]|] == slots[date] && |r[date]| == |slots[date]| + 1)
      && (date in slots ==> Count(r[date], time) == Count(slots[date], time) + 1)
      && (forall d :: d in slots && d != date ==> r[d] == slots[d])
  {
    if date in slots {
      var s := slots[date];
      assert multiset(s + [time]) == multiset(s) + multiset{time};
    }
  }

  /** Appending a label the list lacks keeps it free of repeats. */
  lemma AppendKeepsDistinct(s: seq<Time>, t: Time)
    requires Distinct(s) && t !in s
    ensures Distinct(s + [t])
  {
    var r := s + [t];
    forall i, j | 0 <= i < j < |r| ensures r[i] != r[j] {
      if j == |s| {
        assert r[i] == s[i];
      }
    }
  }

  /** A booking that passed the guard keeps every list free of repeats. */
  lemma ReservePreservesNoDoubleBooking(doctors: map<DoctorId, Doctor>, docId: DoctorId, date: Date, time: Time)
    requires NoDoubleBooking(doctors)
    requires docId in doctors && !Booked(doctors[docId].slotsBooked, date, time)
    ensures NoDoubleBooking(ReserveIn(doctors, docId, date, time))
  {
    var slots := doctors[docId].slotsBooked;
    if date in slots {
      AppendKeepsDistinct(slots[date], time);
    }
    var r := ReserveIn(doctors, docId, date, time);
    forall d, dt | d in r && dt in r[d].slotsBooked ensures Distinct(r[d].slotsBooked[dt]) {
      if d == docId && dt == date {
        assert r[d].slotsBooked[dt] == (if date in slots then slots[date] else []) + [time];
      }
    }
  }

  /** A booking never drops a slot: whatever was booked before still is. */
  lemma ReserveKeepsBooked(doctors: map<DoctorId, Doctor>, docId: DoctorId, date: Date, time: Time,
                           d: DoctorId, dt: Date, t: Time)
    requires docId in doctors && d in doctors && Booked(doctors[d].slotsBooked, dt, t)
    ensures var r := ReserveIn(doctors, docId, date, time);
      d in r && Booked(r[d].slotsBooked, dt, t)
  {
    if d == docId && dt == date {
      var s := doctors[d].slotsBooked[dt];
      assert (s + [time])[..|s|] == s;
    }
  }

  // ---------------------------------------------------------------------------
  // Cancellation

  /** Filtering distributes over concatenation, so the labels that stay keep
      their relative order. */
  lemma {:induction false} WithoutConcat(a: seq<Time>, b: seq<Time>, t: Time)
    ensures Without(a + b, t) == Without(a, t) + Without(b, t)
  {
    if a == [] {
      assert a + b == b;
    } else {
      assert (a + b)[0] == a[0];
      assert (a + b)[1..] == a[1..] + b;
      WithoutConcat(a[1..], b, t);
    }
  }

  /** Filtering a label that does not occur changes nothing. */
  lemma {:induction false} WithoutAbsent(s: seq<Time>, t: Time)
    requires t !in s
    ensures Without(s, t) == s
  {
    if s != [] {
      assert s[1..] + [] == s[1..];
      WithoutAbsent(s[1..], t);
      assert [s[0]] + s[1..] == s;
    }
  }

  /** Filtering removes every occurrence of `t` and keeps every other label
      with its multiplicity. */
  lemma {:induction false} WithoutMultiset(s: seq<Time>, t: Time)
    ensures multiset(Without(s, t)) == multiset(s)[t := 0]
  {
    if s != [] {
      WithoutMultiset(s[1..], t);
      assert s == [s[0]] + s[1..];
      assert multiset(s) == multiset{s[0]} + multiset(s[1..]);
    }
  }

  /** Filtering keeps a list free of repeats. */
  lemma {:induction false} WithoutKeepsDistinct(s: seq<Time>, t: Time)
    requires Distinct(s)
    ensures Distinct(Without(s, t))
  {
    if s != [] {
      var tail := s[1..];
      assert Distinct(tail) by {
        forall i, j | 0 <= i < j < |tail| ensures tail[i] != tail[j] {
          assert tail[i] == s[i + 1] && tail[j] == s[j + 1];
        }
      }
      WithoutKeepsDistinct(tail, t);
      var rest := Without(tail, t);
      if s[0] != t {
        assert s[0] !in tail by {
          forall j | 0 <= j < |tail| ensures tail[j] != s[0] {
            assert tail[j] == s[j + 1];
          }
        }
        assert s[0] !in rest;
        var r := [s[0]] + rest;
        forall i, j | 0 <= i < j < |r| ensures r[i] != r[j] {
          if i == 0 {
            assert r[j] == rest[j - 1];
          } else {
            assert r[i] == rest[i - 1] && r[j] == rest[j - 1];
          }
        }
      } else {
        assert [] + rest == rest;
      }
    }
  }

  /** Filtering twice is filtering once: releasing a slot again is a no-op. */
  lemma WithoutIdempotent(s: seq<Time>, t: Time)
    ensures Without(Without(s, t), t) == Without(s, t)
  {
    WithoutAbsent(Without(s, t), t);
  }

  /** A cancellation frees the slot, keeps every other label of that date and
      leaves every other date as it was. */
  lemma ReleaseFrees(slots: Slots, date: Date, time: Time)
    requires date in slots
    ensures var r := Release(slots, date, time);
      && r.Keys == slots.Keys
      && !Booked(r, date, time)
      && (forall x :: x != time ==> (x in r[date] <==> x in slots[date]))
      && (forall d :: d in slots && d != date ==> r[d] == slots[d])
  {
  }

  /** A cancellation keeps every list free of repeats. */
  lemma ReleasePreservesNoDoubleBooking(doctors: map<DoctorId, Doctor>, docId: DoctorId, date: Date, time: Time)
    requires NoDoubleBooking(doctors)
    requires CanRelease(doctors, docId, date)
    ensures NoDoubleBooking(ReleaseIn(doctors, docId, date, time))
  {
    WithoutKeepsDistinct(doctors[docId].slotsBooked[date], time);
  }

  /** A cancellation undoes the booking it follows: book then cancel leaves the
      date's list as before the booking (an empty list if there was no entry),
      and the slot can be booked again. */
  lemma ReleaseUndoesPush(slots: Slots, date: Date, time: Time)
    requires !Booked(slots, date, time)
    ensures var booked := Push(slots, date, time);
      var freed := Release(booked, date, time);
      && Booked(booked, date, time)
      && freed == slots[date := if date in slots then slots[date] else []]
      && !Booked(freed, date, time)
  {
    var s := if date in slots then slots[date] else [];
    WithoutConcat(s, [time], time);
    WithoutAbsent(s, time);
    assert Without([time], time) == [];
    assert s + [] == s;
  }
}
