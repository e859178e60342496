/** Allocation does not look at when a visit was entered. */
module Entries {
  import opened Allocation
  import opened Team
  import opened FirstCompletion

  ghost predicate SameButEntry(a: Slot, b: Slot) {
    match a
    case Idle => b.Idle?
    case Held(v) => b.Held? && b.visit == v.(entered := b.visit.entered)
    case Busy(v, denied) => b.Busy? && b.denied == denied && b.visit == v.(entered := b.visit.entered)
  }

  ghost predicate AllSameButEntry(a: seq<Slot>, b: seq<Slot>) {
    |a| == |b| && forall i :: 0 <= i < |a| ==> SameButEntry(a[i], b[i])
  }

  lemma {:induction false} RetainEntry(d: Desk, a: seq<Slot>, b: seq<Slot>)
    requires ValidDesk(d) && ValidSlots(d, a) && ValidSlots(d, b) && AllSameButEntry(a, b)
    ensures AllSameButEntry(Retain(d, a).0, Retain(d, b).0) && Retain(d, a).1 == Retain(d, b).1
  {
    if a != [] {
      var n := |a| - 1;
      RetainEntry(d, a[..n], b[..n]);
      assert SameButEntry(a[n], b[n]);
    }
  }

  lemma {:induction false} FillEntry(d: Desk, spent: seq<nat>, a: seq<Slot>, b: seq<Slot>, load: seq<nat>)
    requires ValidDesk(d) && ValidSlots(d, a) && ValidSlots(d, b) && |spent| == |load| == |d.seats| && AllSameButEntry(a, b)
    ensures AllSameButEntry(Fill(d, spent, a, load).0, Fill(d, spent, b, load).0)
    ensures Fill(d, spent, a, load).1 == Fill(d, spent, b, load).1
  {
    if a != [] {
      var n := |a| - 1;
      FillEntry(d, spent, a[..n], b[..n], load);
      assert SameButEntry(a[n], b[n]);
    }
  }

  lemma OneEntry(d: Desk, start: seq<nat>, a: Slot, b: Slot, now: seq<nat>)
    requires ValidDesk(d) && |start| == |now| == |d.seats| && ValidSlot(d, a) && ValidSlot(d, b) && Explained(a) && Explained(b)
    requires (forall j :: 0 <= j < |now| ==> start[j] <= now[j]) && SameButEntry(a, b)
    ensures var p, q := WorkOne(d, start, a, now), WorkOne(d, start, b, now);
            SameButEntry(p.0, q.0) && p.1 == q.1 && p.2 == q.2
  {
  }

  lemma {:induction false} WorkEntry(d: Desk, spent: seq<nat>, a: seq<Slot>, b: seq<Slot>)
    requires ValidDesk(d) && ValidSlots(d, a) && ValidSlots(d, b) && |spent| == |d.seats| && AllSameButEntry(a, b)
    requires AllExplained(a) && AllExplained(b)
    ensures var p, q := Work(d, spent, a), Work(d, spent, b);
            AllSameButEntry(p.slots, q.slots) && p.spent == q.spent && p.causes == q.causes
  {
    if a != [] {
      var n := |a| - 1;
      WorkEntry(d, spent, a[..n], b[..n]);
      OneEntry(d, spent, a[n], b[n], Work(d, spent, a[..n]).spent);
    }
  }

  /** Owners, labor, queueing and consumption of a segment do not depend on when visits were entered: a
      visit entered after the segment is worked on as if it had been entered before. */
  lemma EntryIgnored(bp: Blueprint, overlays: seq<Overlay>, a: Lane, b: Lane, g: Segment)
    requires ValidWindows(bp, overlays) && g.start <= g.end && Staffed(bp, a.slots) && Staffed(bp, b.slots)
    requires AllSameButEntry(a.slots, b.slots) && a.book == b.book && a.causes == b.causes
    ensures var p, q := StepSegment(bp, overlays, a, g), StepSegment(bp, overlays, b, g);
            AllSameButEntry(p.slots, q.slots) && p.book == q.book && p.causes == q.causes
  {
    var d, spent := DeskFor(bp, overlays, g), DaySpent(bp, a.book, g.day);
    RetainEntry(d, a.slots, b.slots);
    var kept := Retain(d, a.slots);
    FillEntry(d, spent, kept.0, Retain(d, b.slots).0, kept.1);
    AssignExplains(d, spent, a.slots);
    AssignExplains(d, spent, b.slots);
    WorkEntry(d, spent, Assign(d, spent, a.slots), Assign(d, spent, b.slots));
  }
}
