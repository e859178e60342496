/** The resolved team blueprint and the persisted Scrum state. Every collection is keyed by its
    semantic identity, so applying after-images is a map union. */
module Team {
  import opened BusinessCalendar
  import opened Rounding
  import opened Allocation

  // ---------- Blueprint ----------

  /** A half-open availability window; a window without a ceiling leaves the daily capacity alone. */
  datatype Window = Window(starts: int, ends: int, fraction: real, ceiling: Option<nat>)

  datatype Member = Member(capacity: nat, wip: nat, skill: map<Key, real>, windows: seq<Window>)

  datatype Step = Step(status: Key, activity: Option<Key>)

  datatype Status = Status(consumes: bool, pauses: bool)

  datatype RuleKind = Cancellation | ExternalDependency | MemberUnavailable

  datatype Trigger = WorkdayStarted | StatusEntered | OtherTrigger

  /** A risk rule; `wait` is the dependency wait, `target` the status of a cancelled item. */
  datatype Rule = Rule(kind: RuleKind, trigger: Trigger, wait: nat, target: Key)

  datatype Blueprint = Blueprint(
    calendar: Calendar, members: seq<Member>, statuses: map<Key, Status>,
    routes: map<Key, seq<Step>>, rules: seq<Rule>,
    minPoints: nat, maxPoints: nat, anchor: int, cadenceDays: nat)

  predicate ValidWindow(w: Window) {
    w.starts < w.ends && 0.0 <= w.fraction <= 1.0
  }

  // ---------- State ----------

  datatype Life = Backlog | Active | Done | Cancelled

  datatype Item = Item(kind: Key, points: nat, life: Life, status: Key)

  datatype Phase = Planned | Running | Completed

  datatype Sprint = Sprint(ordinal: nat, phase: Phase, start: int, end: int)

  /** The time an item entered a sprint's scope and, once known, the time it left. */
  datatype ScopeEntry = ScopeEntry(added: int, removed: Option<int>)

  datatype Overlay = Overlay(member: nat, window: Window)

  datatype Decision = CancellationOutcome | AbsenceOutcome

  /** What a semantic counter numbers. */
  datatype Counter = SprintOrdinal | VisitOrdinal(item: nat) | Occurrence(decision: Decision, entity: nat)

  /** Labor consumed by (member, business date). */
  type Book = map<(nat, int), nat>

  /** Visits by (item, ordinal), sprints by ordinal, scope by (sprint, item). Items are held in
      simulator-rank order. */
  datatype State = State(
    cursor: int, version: nat, items: seq<Item>, visits: map<(nat, nat), Visit>,
    sprints: map<nat, Sprint>, scope: map<(nat, nat), ScopeEntry>,
    book: Book, overlays: seq<Overlay>, counters: map<Counter, nat>)

  function Next(s: State, counter: Counter): nat {
    if counter in s.counters then s.counters[counter] else 0
  }

  function Spent(book: Book, j: nat, day: int): nat {
    if (j, day) in book then book[(j, day)] else 0
  }

  // ---------- Members as one segment sees them ----------

  datatype Segment = Segment(day: int, start: int, end: int)

  function ActiveAt(w: Window, t: int): bool {
    w.starts <= t < w.ends
  }

  function OverlayWindows(overlays: seq<Overlay>, j: nat): (r: seq<Window>)
    ensures forall k :: 0 <= k < |r| ==> exists i :: 0 <= i < |overlays| && overlays[i].window == r[k]
  {
    if overlays == [] then []
    else
      var rest := OverlayWindows(overlays[..|overlays| - 1], j);
      var last := overlays[|overlays| - 1];
      if last.member == j then rest + [last.window] else rest
  }

  /** The least fraction of the windows active at t, 1 when none is. */
  function Fraction(ws: seq<Window>, t: int): (r: real)
    ensures r <= 1.0 && ((forall k :: 0 <= k < |ws| ==> ValidWindow(ws[k])) ==> 0.0 <= r)
  {
    if ws == [] then 1.0
    else
      var rest := Fraction(ws[..|ws| - 1], t);
      var last := ws[|ws| - 1];
      if ActiveAt(last, t) && last.fraction < rest then last.fraction else rest
  }

  /** The least ceiling of the windows active at t, never above the configured capacity. */
  function Ceiling(capacity: nat, ws: seq<Window>, t: int): (r: nat)
    ensures r <= capacity
  {
    if ws == [] then capacity
    else
      var rest := Ceiling(capacity, ws[..|ws| - 1], t);
      var last := ws[|ws| - 1];
      if ActiveAt(last, t) && last.ceiling.Some? && last.ceiling.value < rest then last.ceiling.value else rest
  }

  predicate ValidWindows(bp: Blueprint, overlays: seq<Overlay>) {
    && (forall j, k :: 0 <= j < |bp.members| && 0 <= k < |bp.members[j].windows| ==>
          ValidWindow(bp.members[j].windows[k]))
    && (forall k :: 0 <= k < |overlays| ==> ValidWindow(overlays[k].window))
  }

  function MemberWindows(bp: Blueprint, overlays: seq<Overlay>, j: nat): (r: seq<Window>)
    requires j < |bp.members|
    ensures ValidWindows(bp, overlays) ==> forall k :: 0 <= k < |r| ==> ValidWindow(r[k])
  {
    bp.members[j].windows + OverlayWindows(overlays, j)
  }

  function SeatFor(bp: Blueprint, overlays: seq<Overlay>, seg: Segment, j: nat): (r: Seat)
    requires j < |bp.members| && ValidWindows(bp, overlays) && seg.start <= seg.end
    ensures r.available <= seg.end - seg.start && 0.0 <= r.fraction <= 1.0
    ensures r.fraction == 0.0 ==> r.available == 0
    ensures r.fraction == 1.0 ==> r.available == seg.end - seg.start
    ensures r.ceiling <= bp.members[j].capacity
  {
    var ws := MemberWindows(bp, overlays, j);
    var f := Fraction(ws, seg.start);
    Seat(f, Share(seg.end - seg.start, f), Share(Ceiling(bp.members[j].capacity, ws, seg.start), f),
         bp.members[j].wip, bp.members[j].skill)
  }

  function PausingStatuses(bp: Blueprint): set<Key> {
    set k | k in bp.statuses && bp.statuses[k].pauses
  }

  function DeskFor(bp: Blueprint, overlays: seq<Overlay>, seg: Segment): (r: Desk)
    requires ValidWindows(bp, overlays) && seg.start <= seg.end
    ensures ValidDesk(r) && |r.seats| == |bp.members| && r.len == seg.end - seg.start
    ensures r.pausing == PausingStatuses(bp)
    ensures forall j :: 0 <= j < |bp.members| ==> r.seats[j] == SeatFor(bp, overlays, seg, j)
  {
    Desk(seg.end - seg.start,
         seq(|bp.members|, j requires 0 <= j < |bp.members| => SeatFor(bp, overlays, seg, j)),
         PausingStatuses(bp))
  }

  function DaySpent(bp: Blueprint, book: Book, day: int): (r: seq<nat>)
    ensures |r| == |bp.members| && forall j :: 0 <= j < |r| ==> r[j] == Spent(book, j, day)
  {
    seq(|bp.members|, j requires 0 <= j < |bp.members| => Spent(book, j, day))
  }

  /** Write back the day's consumption of every member for whom it changed. */
  function Post(book: Book, day: int, spent: seq<nat>): (r: Book)
    ensures forall k :: k in book ==> k in r
  {
    if spent == [] then book
    else
      var n := |spent| - 1;
      var rest := Post(book, day, spent[..n]);
      if spent[n] == Spent(rest, n, day) then rest else rest[(n, day) := spent[n]]
  }

  /** After posting, the day's column is `spent` and nothing else has changed. */
  lemma {:induction false} PostSpent(book: Book, day: int, spent: seq<nat>, j: nat, e: int)
    ensures Spent(Post(book, day, spent), j, e) ==
            if e == day && j < |spent| then spent[j] else Spent(book, j, e)
  {
    if spent != [] {
      PostSpent(book, day, spent[..|spent| - 1], j, e);
    }
  }
}
