/** The weekly schedule of the hydration payload (hydration_service.py, _build_schedule). */
module Schedule {
  import opened Text

  datatype Slot = Slot(id: string, dayOfWeek: int, startTime: string)

  /** The slots of one day, in order. */
  function OfDay(slots: seq<Slot>, day: int): seq<Slot> {
    if slots == [] then []
    else OfDay(slots[..|slots| - 1], day)
         + (if slots[|slots| - 1].dayOfWeek == day then [slots[|slots| - 1]] else [])
  }

  predicate KnownDays(slots: seq<Slot>) {
    forall i :: 0 <= i < |slots| ==> 1 <= slots[i].dayOfWeek <= 7
  }

  predicate SortedByDay(slots: seq<Slot>) {
    forall i, j :: 0 <= i < j < |slots| ==> slots[i].dayOfWeek <= slots[j].dayOfWeek
  }

  /** The day buckets and the flat list; None where an unknown day raises a KeyError. */
  method BuildSchedule(slots: seq<Slot>) returns (r: Option<(seq<seq<Slot>>, seq<Slot>)>)
    ensures r.Some? <==> KnownDays(slots)
    ensures r.Some? ==> r.value.1 == slots && |r.value.0| == 7
    ensures r.Some? ==> forall d :: 1 <= d <= 7 ==> r.value.0[d - 1] == OfDay(slots, d)
  {
    var dayMap: seq<seq<Slot>> := [[], [], [], [], [], [], []];
    var flatList := [];
    var i := 0;
    while i < |slots|
      invariant 0 <= i <= |slots| && |dayMap| == 7 && KnownDays(slots[..i]) && flatList == slots[..i]
      invariant forall d :: 1 <= d <= 7 ==> dayMap[d - 1] == OfDay(slots[..i], d)
    {
      var slot := slots[i];
      assert slots[..i + 1][..i] == slots[..i];
      if !(1 <= slot.dayOfWeek <= 7) { return None; }
      dayMap := dayMap[slot.dayOfWeek - 1 := dayMap[slot.dayOfWeek - 1] + [slot]];
      flatList := flatList + [slot];
      i := i + 1;
    }
    assert slots[..|slots|] == slots;
    r := Some((dayMap, flatList));
  }

  /** The buckets of the days from `day` to Sunday, one after the other. */
  function DaysFrom(slots: seq<Slot>, day: int): seq<Slot>
    decreases 8 - day
  {
    if day > 7 then [] else OfDay(slots, day) + DaysFrom(slots, day + 1)
  }

  /** A last slot, on the latest day so far, comes last in the concatenated buckets. */
  lemma {:induction false} LastSlotLast(slots: seq<Slot>, day: int)
    requires slots != [] && SortedByDay(slots) && KnownDays(slots)
    ensures var n := |slots| - 1;
            DaysFrom(slots, day) == DaysFrom(slots[..n], day) + (if slots[n].dayOfWeek >= day then [slots[n]] else [])
    decreases 8 - day
  {
    hide OfDay;
    var n := |slots| - 1;
    if day <= 7 {
      var a, b := OfDay(slots[..n], day), DaysFrom(slots[..n], day + 1);
      LastSlotLast(slots, day + 1);
      LastOfDay(slots, day);
      if slots[n].dayOfWeek == day {
        NothingLater(slots[..n], day + 1);
        assert DaysFrom(slots, day) == (a + [slots[n]]) + [] == (a + b) + [slots[n]];
      } else if slots[n].dayOfWeek > day {
        assert DaysFrom(slots, day) == a + (b + [slots[n]]) == (a + b) + [slots[n]];
      }
    }
  }

  lemma LastOfDay(slots: seq<Slot>, day: int)
    requires slots != []
    ensures var n := |slots| - 1;
            OfDay(slots, day) == OfDay(slots[..n], day) + (if slots[n].dayOfWeek == day then [slots[n]] else [])
  {
  }

  lemma {:induction false} NothingLater(slots: seq<Slot>, day: int)
    requires forall i :: 0 <= i < |slots| ==> slots[i].dayOfWeek < day
    ensures DaysFrom(slots, day) == []
    decreases 8 - day
  {
    if day <= 7 {
      NothingOnDay(slots, day);
      NothingLater(slots, day + 1);
    }
  }

  lemma {:induction false} NothingOnDay(slots: seq<Slot>, day: int)
    requires forall i :: 0 <= i < |slots| ==> slots[i].dayOfWeek < day
    ensures OfDay(slots, day) == []
  {
    if slots != [] { NothingOnDay(slots[..|slots| - 1], day); }
  }

  lemma {:induction false} OfDayOnly(slots: seq<Slot>, day: int)
    ensures forall i :: 0 <= i < |OfDay(slots, day)| ==> OfDay(slots, day)[i].dayOfWeek == day
  {
    if slots != [] { OfDayOnly(slots[..|slots| - 1], day); }
  }

  lemma {:induction false} BucketsSorted(slots: seq<Slot>, day: int)
    ensures SortedByDay(DaysFrom(slots, day))
    ensures forall i :: 0 <= i < |DaysFrom(slots, day)| ==> DaysFrom(slots, day)[i].dayOfWeek >= day
    decreases 8 - day
  {
    if day <= 7 {
      OfDayOnly(slots, day);
      BucketsSorted(slots, day + 1);
    }
  }

  lemma {:induction false} SortedAgrees(slots: seq<Slot>)
    requires SortedByDay(slots) && KnownDays(slots)
    ensures DaysFrom(slots, 1) == slots
  {
    if slots == [] {
      NothingLater(slots, 1);
    } else {
      var n := |slots| - 1;
      SortedAgrees(slots[..n]);
      LastSlotLast(slots, 1);
      assert slots == slots[..n] + [slots[n]];
    }
  }

  /** The buckets in weekday order concatenate to the flat list exactly when it is sorted by day. */
  lemma BucketsAgree(slots: seq<Slot>)
    requires KnownDays(slots)
    ensures DaysFrom(slots, 1) == slots <==> SortedByDay(slots)
  {
    BucketsSorted(slots, 1);
    if SortedByDay(slots) { SortedAgrees(slots); }
  }
}
