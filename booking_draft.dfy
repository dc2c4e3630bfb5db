/** The booking draft shared by the package selector and the scheduling
    calendar: the selected package and the proposed wash instants. */
module BookingDraft {
  import opened Wrappers
  import opened Seqs
  import opened Catalog
  import opened DateUtils

  /** The alert the calendar raises for a proposal, or acceptance. */
  datatype Verdict = Accepted | NoPackageSelected | ExceedsDuration | QuotaReached | AlreadyScheduled

  /** The draft's state: a selected package and the proposed instants, in proposal order. */
  datatype Draft = Draft(selectedPackage: Option<Package>, dates: seq<int>)

  /** The initial context: no package, no dates. */
  const Initial: Draft := Draft(None, [])

  /** What holds of every reachable draft: no dates without a package, never
      more dates than the package's washes, and no instant twice. */
  predicate Inv(d: Draft)
  {
    && (d.selectedPackage.None? ==> d.dates == [])
    && (d.selectedPackage.Some? ==> |d.dates| <= d.selectedPackage.value.washes)
    && Distinct(d.dates)
  }

  /** The calendar's fail-fast guard chain for a proposed instant. */
  function CheckDate(d: Draft, date: int, now: int): (v: Verdict)
    ensures v == NoPackageSelected <==> d.selectedPackage.None?
    ensures v == ExceedsDuration <==>
      d.selectedPackage.Some? && date > WindowEnd(now, d.selectedPackage.value.duration)
    ensures v == QuotaReached <==>
      && d.selectedPackage.Some?
      && date <= WindowEnd(now, d.selectedPackage.value.duration)
      && |d.dates| >= d.selectedPackage.value.washes
    ensures v == AlreadyScheduled <==>
      && d.selectedPackage.Some?
      && date <= WindowEnd(now, d.selectedPackage.value.duration)
      && |d.dates| < d.selectedPackage.value.washes
      && date in d.dates
    ensures v == Accepted <==>
      && d.selectedPackage.Some?
      && date <= WindowEnd(now, d.selectedPackage.value.duration)
      && |d.dates| < d.selectedPackage.value.washes
      && date !in d.dates
  {
    match d.selectedPackage
    case None => NoPackageSelected
    case Some(pkg) =>
      if date > WindowEnd(now, pkg.duration) then ExceedsDuration
      else if |d.dates| >= pkg.washes then QuotaReached
      else if IsDateScheduled(date, d.dates) then AlreadyScheduled
      else Accepted
  }

  /** The draft after `handleDateSelect`: the date appended when accepted, otherwise untouched. */
  function Propose(d: Draft, date: int, now: int): (r: Draft)
    ensures r.selectedPackage == d.selectedPackage
    ensures CheckDate(d, date, now) == Accepted ==> r.dates == d.dates + [date]
    ensures CheckDate(d, date, now) != Accepted ==> r == d
    ensures Inv(d) ==> Inv(r)
  {
    if CheckDate(d, date, now) == Accepted then
      AppendKeepsDistinct(d.dates, date);
      d.(dates := d.dates + [date])
    else d
  }

  /** The draft after `handleRemoveDate`: every equal instant dropped, the others kept in order. */
  function Remove(d: Draft, date: int): (r: Draft)
    ensures r.selectedPackage == d.selectedPackage
    ensures date !in r.dates
    ensures forall i :: 0 <= i < |d.dates| && d.dates[i] != date ==> d.dates[i] in r.dates
    ensures forall i :: 0 <= i < |r.dates| ==> r.dates[i] in d.dates
    ensures date !in d.dates ==> r == d
    ensures Inv(d) ==> Inv(r)
  {
    var p := (x: int) => x != date;
    FilterKeepsDistinct(p, d.dates);
    // The filter keeps every entry when the date is absent (the no-op ensures).
    assert date !in d.dates ==> Filter(p, d.dates) == d.dates by {
      if date !in d.dates {
        FilterKeepsAll(p, d.dates);
      }
    }
    d.(dates := Filter(p, d.dates))
  }

  /** Removal keeps the order of what remains: removing from a concatenation
      is the concatenation of the removals. */
  lemma RemoveKeepsOrder(a: seq<int>, b: seq<int>, date: int)
    ensures Remove(Draft(None, a + b), date).dates
         == Remove(Draft(None, a), date).dates + Remove(Draft(None, b), date).dates
  {
    FilterConcat((x: int) => x != date, a, b);
  }

  /** The draft after `handleSelectPackage`: the package set, the dates cleared. */
  function Select(d: Draft, pkg: Package): (r: Draft)
    ensures r.selectedPackage == Some(pkg) && r.dates == []
    ensures Inv(r)
  {
    Draft(Some(pkg), [])
  }

  /** Selecting the same package twice is the same as selecting it once. */
  lemma SelectIdempotent(d: Draft, pkg: Package)
    ensures Select(Select(d, pkg), pkg) == Select(d, pkg)
  {
  }

  /** The remaining-washes figure shown under the calendar. */
  function Remaining(d: Draft): (n: int)
    requires d.selectedPackage.Some?
    ensures Inv(d) ==> 0 <= n <= d.selectedPackage.value.washes
    ensures n + |d.dates| == d.selectedPackage.value.washes
  {
    d.selectedPackage.value.washes - |d.dates|
  }

  /** A user action on the draft. */
  datatype Event = SelectPackage(pkg: Package) | ProposeDate(date: int, now: int) | RemoveDate(date: int)

  function Apply(d: Draft, e: Event): Draft
  {
    match e
    case SelectPackage(pkg) => Select(d, pkg)
    case ProposeDate(date, now) => Propose(d, date, now)
    case RemoveDate(date) => Remove(d, date)
  }

  /** The draft after a sequence of user actions, in order. */
  function Replay(d: Draft, es: seq<Event>): Draft
    decreases |es|
  {
    if es == [] then d else Replay(Apply(d, es[0]), es[1..])
  }

  /** Every sequence of actions keeps the draft invariant. */
  lemma {:induction false} ReplayKeepsInv(d: Draft, es: seq<Event>)
    requires Inv(d)
    ensures Inv(Replay(d, es))
    decreases |es|
  {
    if es != [] {
      ReplayKeepsInv(Apply(d, es[0]), es[1..]);
    }
  }

  /** From the initial context, whatever the actions: never more dates than the
      selected package's washes, no instant twice, and a non-negative remaining count. */
  lemma QuotaAndNoDuplicatesAlways(es: seq<Event>)
    ensures var d := Replay(Initial, es);
      && Distinct(d.dates)
      && (d.selectedPackage.Some? ==> |d.dates| <= d.selectedPackage.value.washes && Remaining(d) >= 0)
      && (d.selectedPackage.None? ==> d.dates == [])
  {
    ReplayKeepsInv(Initial, es);
  }

  /** The calendar enforces no lower bound: an instant before now, within quota
      and not yet proposed, is accepted although it is not within range in the
      sense of the date helper. */
  lemma PastDateAccepted(pkg: Package, dates: seq<int>, date: int, now: int)
    requires date < now && |dates| < pkg.washes && date !in dates
    ensures CheckDate(Draft(Some(pkg), dates), date, now) == Accepted
    ensures !IsDateWithinRange(date, pkg.duration, now)
  {
  }

  /** Every instant within range passes the calendar's window guard. */
  lemma WithinRangePassesWindow(d: Draft, date: int, now: int)
    requires d.selectedPackage.Some?
    requires IsDateWithinRange(date, d.selectedPackage.value.duration, now)
    ensures CheckDate(d, date, now) != ExceedsDuration
  {
  }

  /** The 30-day, 4-wash walk-through: three distinct dates leave one wash, a
      duplicate is refused, a fourth date leaves none, a fifth hits the quota;
      selecting again clears the dates. */
  lemma ThirtyDayWalkThrough(now: int)
    ensures var d0 := Select(Initial, Packages[2]);
      var d3 := Propose(Propose(Propose(d0, now, now), now + DAY, now), now + 2 * DAY, now);
      var d4 := Propose(d3, now + 3 * DAY, now);
      && d3.dates == [now, now + DAY, now + 2 * DAY] && Remaining(d3) == 1
      && CheckDate(d3, now, now) == AlreadyScheduled
      && d4.dates == d3.dates + [now + 3 * DAY] && Remaining(d4) == 0
      && CheckDate(d4, now + 4 * DAY, now) == QuotaReached
      && Select(d4, Packages[2]).dates == []
  {
  }

  /** The shared draft context, updated in place by the two components' handlers. */
  class DraftSession {
    var selectedPackage: Option<Package>
    var dates: seq<int>

    function State(): Draft
      reads this
    {
      Draft(selectedPackage, dates)
    }

    /** The context always holds a reachable draft. */
    ghost predicate Valid()
      reads this
    {
      Inv(State())
    }

    constructor ()
      ensures Valid() && State() == Initial
    {
      selectedPackage := None;
      dates := [];
    }

    /** `handleSelectPackage`: set the package, clear the dates. */
    method HandleSelectPackage(pkg: Package)
      requires Valid()
      modifies this
      ensures Valid()
      ensures selectedPackage == Some(pkg) && dates == []
      ensures State() == Apply(old(State()), SelectPackage(pkg))
    {
      selectedPackage := Some(pkg);
      dates := [];
    }

    /** `handleDateSelect`: the guard chain, then append. */
    method HandleDateSelect(date: int, now: int) returns (v: Verdict)
      requires Valid()
      modifies this
      ensures Valid()
      ensures v == CheckDate(old(State()), date, now)
      ensures selectedPackage == old(selectedPackage)
      ensures dates == if v == Accepted then old(dates) + [date] else old(dates)
      ensures State() == Apply(old(State()), ProposeDate(date, now))
    {
      if selectedPackage.None? {
        return NoPackageSelected;
      }
      var pkg := selectedPackage.value;
      var packageEnd := WindowEnd(now, pkg.duration);
      if date > packageEnd {
        return ExceedsDuration;
      }
      if |dates| >= pkg.washes {
        return QuotaReached;
      }
      if IsDateScheduled(date, dates) {
        return AlreadyScheduled;
      }
      dates := dates + [date];
      v := Accepted;
    }

    /** `handleRemoveDate`: drop every equal instant. */
    method HandleRemoveDate(date: int)
      requires Valid()
      modifies this
      ensures Valid()
      ensures selectedPackage == old(selectedPackage)
      ensures dates == Filter((x: int) => x != date, old(dates))
      ensures State() == Apply(old(State()), RemoveDate(date))
    {
      dates := Remove(State(), date).dates;
    }

    /** "Remaining Washes", shown only once a package is selected. */
    function RemainingWashes(): (n: int)
      reads this
      requires Valid() && selectedPackage.Some?
      ensures 0 <= n <= selectedPackage.value.washes
    {
      Remaining(State())
    }
  }
}
