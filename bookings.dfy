/** The booking endpoint: request validation and the all-or-nothing write of a
    schedule, its car details and one row per scheduled date. The database is
    three row sequences with identity counters; a transaction's begin is a
    snapshot of the rows and its rollback restores it. */
module Bookings {
  import opened Wrappers

  /** A row of Schedules; `carId` is NULL until the booking back-patches it. */
  datatype ScheduleRow = ScheduleRow(
    scheduleId: int, userId: int, serviceId: int,
    scheduledPackage: Option<string>, status: string, carId: Option<int>)

  /** A row of CarDetails, pointing at its schedule. */
  datatype CarRow = CarRow(
    carId: int, userId: int, scheduleId: int,
    carMake: string, carModel: string, registrationNumber: string, color: string,
    additionalNotes: Option<string>)

  /** A row of ScheduledDates. */
  datatype DateRow = DateRow(scheduleId: int, dateTime: int)

  datatype Tables = Tables(schedules: seq<ScheduleRow>, cars: seq<CarRow>, dateRows: seq<DateRow>)

  /** The `scheduledDates` member of a request body: absent, present but not an
      array, or an array of instants. */
  datatype DatesField = Missing | NotAnArray | Items(items: seq<int>)

  /** The body of a booking request; `None` is an absent member. */
  datatype BookingRequest = BookingRequest(
    userId: Option<int>, carMake: Option<string>, carModel: Option<string>,
    registrationNumber: Option<string>, color: Option<string>,
    additionalNotes: Option<string>, serviceId: Option<int>,
    scheduledDates: DatesField, scheduledPackage: Option<string>, status: Option<string>)

  /** JavaScript truthiness of a text member: present and non-empty. */
  predicate Present(s: Option<string>)
  {
    s.Some? && s.value != ""
  }

  /** JavaScript truthiness of a numeric member: present and non-zero. */
  predicate PresentId(n: Option<int>)
  {
    n.Some? && n.value != 0
  }

  /** The request passes the endpoint's guard: every required member truthy and a
      non-empty array of dates. */
  predicate IsComplete(req: BookingRequest)
  {
    && PresentId(req.userId) && Present(req.carMake) && Present(req.carModel)
    && Present(req.registrationNumber) && Present(req.color) && PresentId(req.serviceId)
    && req.scheduledDates.Items? && |req.scheduledDates.items| > 0
  }

  /** The stored status: the request's, or "Scheduled" when it is absent. */
  function StatusOf(req: BookingRequest): (s: string)
    ensures req.status.None? ==> s == "Scheduled"
    ensures req.status.Some? ==> s == req.status.value
  {
    if req.status.Some? then req.status.value else "Scheduled"
  }

  /** The stored notes: NULL unless the request's notes are truthy. */
  function NotesOf(req: BookingRequest): (n: Option<string>)
    ensures n.Some? <==> Present(req.additionalNotes)
    ensures n.Some? ==> n == req.additionalNotes
  {
    if Present(req.additionalNotes) then req.additionalNotes else None
  }

  /** A step of the transaction that can throw; the failure being injected. */
  datatype FailPoint = AtBegin | AtScheduleInsert | AtCarInsert | AtCarIdUpdate | AtDateInsert(index: nat) | AtCommit

  /** The injected failure is reached by a booking with `n` dates. */
  predicate Fires(fail: Option<FailPoint>, n: nat)
  {
    fail.Some? && (fail.value.AtDateInsert? ==> fail.value.index < n)
  }

  /** The HTTP status of a booking: 400 for a rejected body, 500 when a step
      throws, 201 otherwise. */
  function BookingStatus(req: BookingRequest, fail: Option<FailPoint>): (code: int)
    ensures code == 400 <==> !IsComplete(req)
    ensures code == 500 <==> IsComplete(req) && Fires(fail, |req.scheduledDates.items|)
    ensures code in {201, 400, 500}
  {
    if !IsComplete(req) then 400
    else if Fires(fail, |req.scheduledDates.items|) then 500
    else 201
  }

  /** The header row inserted for a booking, with its car already patched in. */
  function NewSchedule(req: BookingRequest, scheduleId: int, carId: int): ScheduleRow
    requires IsComplete(req)
  {
    ScheduleRow(scheduleId, req.userId.value, req.serviceId.value, req.scheduledPackage, StatusOf(req), Some(carId))
  }

  function NewCar(req: BookingRequest, scheduleId: int, carId: int): CarRow
    requires IsComplete(req)
  {
    CarRow(carId, req.userId.value, scheduleId, req.carMake.value, req.carModel.value,
           req.registrationNumber.value, req.color.value, NotesOf(req))
  }

  /** One ScheduledDates row per instant, in the order given. */
  function DateRowsFor(scheduleId: int, items: seq<int>): seq<DateRow>
  {
    seq(|items|, k requires 0 <= k < |items| => DateRow(scheduleId, items[k]))
  }

  /** `UPDATE Schedules SET CarID = carId WHERE ScheduleID = scheduleId`. */
  function SetCarId(rows: seq<ScheduleRow>, scheduleId: int, carId: int): (r: seq<ScheduleRow>)
    ensures |r| == |rows|
    ensures forall i :: 0 <= i < |r| ==> r[i].(carId := rows[i].carId) == rows[i]
    ensures forall i :: 0 <= i < |r| && rows[i].scheduleId == scheduleId ==> r[i].carId == Some(carId)
    ensures forall i :: 0 <= i < |r| && rows[i].scheduleId != scheduleId ==> r[i] == rows[i]
  {
    seq(|rows|, i requires 0 <= i < |rows| =>
      if rows[i].scheduleId == scheduleId then rows[i].(carId := Some(carId)) else rows[i])
  }

  /** The tables after a committed booking that received identities `scheduleId`
      and `carId`: one more schedule, one more car, one date row per instant. */
  function Committed(t: Tables, req: BookingRequest, scheduleId: int, carId: int): (r: Tables)
    requires IsComplete(req)
    ensures |r.schedules| == |t.schedules| + 1
    ensures |r.cars| == |t.cars| + 1
    ensures |r.dateRows| == |t.dateRows| + |req.scheduledDates.items|
  {
    Tables(t.schedules + [NewSchedule(req, scheduleId, carId)],
           t.cars + [NewCar(req, scheduleId, carId)],
           t.dateRows + DateRowsFor(scheduleId, req.scheduledDates.items))
  }

  /** Some car row belongs to schedule `scheduleId` and carries `carId`. */
  ghost predicate HasCar(cars: seq<CarRow>, carId: int, scheduleId: int)
  {
    exists k :: 0 <= k < |cars| && cars[k].carId == carId && cars[k].scheduleId == scheduleId
  }

  /** Some date row belongs to schedule `scheduleId`. */
  ghost predicate HasDate(dateRows: seq<DateRow>, scheduleId: int)
  {
    exists k :: 0 <= k < |dateRows| && dateRows[k].scheduleId == scheduleId
  }

  /** Some schedule row has identity `scheduleId`. */
  ghost predicate HasSchedule(schedules: seq<ScheduleRow>, scheduleId: int)
  {
    exists i :: 0 <= i < |schedules| && schedules[i].scheduleId == scheduleId
  }

  /** Identities are below their counters and unique, and no two car rows
      belong to the same schedule (one CarDetails row per booking). */
  ghost predicate IdentitiesFresh(t: Tables, nextScheduleId: int, nextCarId: int)
  {
    && (forall i :: 0 <= i < |t.schedules| ==> t.schedules[i].scheduleId < nextScheduleId)
    && (forall i, j :: 0 <= i < j < |t.schedules| ==> t.schedules[i].scheduleId != t.schedules[j].scheduleId)
    && (forall k :: 0 <= k < |t.cars| ==> t.cars[k].carId < nextCarId)
    && (forall k, l :: 0 <= k < l < |t.cars| ==> t.cars[k].carId != t.cars[l].carId)
    && (forall k, l :: 0 <= k < l < |t.cars| ==> t.cars[k].scheduleId != t.cars[l].scheduleId)
  }

  /** Every car row and every date row points at an existing schedule. */
  ghost predicate ChildrenHaveParents(t: Tables)
  {
    && (forall k :: 0 <= k < |t.cars| ==> HasSchedule(t.schedules, t.cars[k].scheduleId))
    && (forall k :: 0 <= k < |t.dateRows| ==> HasSchedule(t.schedules, t.dateRows[k].scheduleId))
  }

  /** Schedule `s` has its car patched in and at least one date. */
  ghost predicate ScheduleComplete(t: Tables, s: ScheduleRow)
  {
    s.carId.Some? && HasCar(t.cars, s.carId.value, s.scheduleId) && HasDate(t.dateRows, s.scheduleId)
  }

  /** What every committed state satisfies: fresh identities, no orphan rows,
      and every schedule complete (no partial booking is ever visible). */
  ghost predicate Consistent(t: Tables, nextScheduleId: int, nextCarId: int)
  {
    && IdentitiesFresh(t, nextScheduleId, nextCarId)
    && ChildrenHaveParents(t)
    && (forall i :: 0 <= i < |t.schedules| ==> ScheduleComplete(t, t.schedules[i]))
  }

  /** Identities handed out and not reused keep a consistent state consistent. */
  lemma ConsistentUnderLargerCounters(t: Tables, s: int, c: int, s': int, c': int)
    requires Consistent(t, s, c) && s <= s' && c <= c'
    ensures Consistent(t, s', c')
  {
  }

  /** The rows a committed booking adds: one schedule with the new identity and
      the new car's identity, one car row pointing back at it, and one date row
      per requested instant, in request order, all pointing at it. Earlier rows
      are untouched. */
  lemma CommitAddsOneBooking(t: Tables, req: BookingRequest, scheduleId: int, carId: int)
    requires IsComplete(req)
    ensures var r := Committed(t, req, scheduleId, carId);
      var items := req.scheduledDates.items;
      && r.schedules[..|t.schedules|] == t.schedules
      && r.schedules[|t.schedules|].scheduleId == scheduleId
      && r.schedules[|t.schedules|].carId == Some(carId)
      && r.schedules[|t.schedules|].userId == req.userId.value
      && r.schedules[|t.schedules|].serviceId == req.serviceId.value
      && r.schedules[|t.schedules|].scheduledPackage == req.scheduledPackage
      && r.schedules[|t.schedules|].status == StatusOf(req)
      && r.cars[..|t.cars|] == t.cars
      && r.cars[|t.cars|].carId == carId && r.cars[|t.cars|].scheduleId == scheduleId
      && r.cars[|t.cars|].userId == req.userId.value
      && r.cars[|t.cars|].carMake == req.carMake.value
      && r.cars[|t.cars|].carModel == req.carModel.value
      && r.cars[|t.cars|].registrationNumber == req.registrationNumber.value
      && r.cars[|t.cars|].color == req.color.value
      && r.cars[|t.cars|].additionalNotes == NotesOf(req)
      && r.dateRows[..|t.dateRows|] == t.dateRows
      && (forall k :: 0 <= k < |items| ==>
            r.dateRows[|t.dateRows| + k] == DateRow(scheduleId, items[k]))
  {
  }

  /** A committed booking on fresh identities keeps the tables consistent. */
  lemma CommitKeepsConsistent(t: Tables, req: BookingRequest, scheduleId: int, carId: int)
    requires IsComplete(req)
    requires Consistent(t, scheduleId, carId)
    ensures Consistent(Committed(t, req, scheduleId, carId), scheduleId + 1, carId + 1)
  {
    var r := Committed(t, req, scheduleId, carId);
    CommitKeepsIdentitiesFresh(t, req, scheduleId, carId);
    CommitKeepsParents(t, req, scheduleId, carId);
    forall i | 0 <= i < |r.schedules| ensures ScheduleComplete(r, r.schedules[i]) {
      CommitKeepsComplete(t, req, scheduleId, carId, i);
    }
  }

  lemma CommitKeepsIdentitiesFresh(t: Tables, req: BookingRequest, scheduleId: int, carId: int)
    requires IsComplete(req)
    requires IdentitiesFresh(t, scheduleId, carId) && ChildrenHaveParents(t)
    ensures IdentitiesFresh(Committed(t, req, scheduleId, carId), scheduleId + 1, carId + 1)
  {
    var r := Committed(t, req, scheduleId, carId);
    var m := |t.cars|;
    forall k | 0 <= k < m ensures t.cars[k].scheduleId < scheduleId {
      var i :| 0 <= i < |t.schedules| && t.schedules[i].scheduleId == t.cars[k].scheduleId;
    }
    forall k, l | 0 <= k < l < |r.cars|
      ensures r.cars[k].carId != r.cars[l].carId && r.cars[k].scheduleId != r.cars[l].scheduleId
    {
      assert r.cars[k] == t.cars[k];
      if l < m {
        assert r.cars[l] == t.cars[l];
      }
    }
  }

  lemma CommitKeepsParents(t: Tables, req: BookingRequest, scheduleId: int, carId: int)
    requires IsComplete(req)
    requires ChildrenHaveParents(t)
    ensures ChildrenHaveParents(Committed(t, req, scheduleId, carId))
  {
    var r := Committed(t, req, scheduleId, carId);
    var n, m, d := |t.schedules|, |t.cars|, |t.dateRows|;
    assert HasSchedule(r.schedules, scheduleId) by {
      assert r.schedules[n].scheduleId == scheduleId;
    }
    forall k | 0 <= k < |r.cars| ensures HasSchedule(r.schedules, r.cars[k].scheduleId) {
      if k < m {
        assert r.cars[k] == t.cars[k];
        var i :| 0 <= i < n && t.schedules[i].scheduleId == t.cars[k].scheduleId;
        assert r.schedules[i] == t.schedules[i];
      }
    }
    forall k | 0 <= k < |r.dateRows| ensures HasSchedule(r.schedules, r.dateRows[k].scheduleId) {
      if k < d {
        assert r.dateRows[k] == t.dateRows[k];
        var i :| 0 <= i < n && t.schedules[i].scheduleId == t.dateRows[k].scheduleId;
        assert r.schedules[i] == t.schedules[i];
      } else {
        assert r.dateRows[k].scheduleId == scheduleId;
      }
    }
  }

  lemma CommitKeepsComplete(t: Tables, req: BookingRequest, scheduleId: int, carId: int, i: int)
    requires IsComplete(req)
    requires forall j :: 0 <= j < |t.schedules| ==> ScheduleComplete(t, t.schedules[j])
    requires 0 <= i <= |t.schedules|
    ensures ScheduleComplete(Committed(t, req, scheduleId, carId), Committed(t, req, scheduleId, carId).schedules[i])
  {
    var r := Committed(t, req, scheduleId, carId);
    var n, m, d := |t.schedules|, |t.cars|, |t.dateRows|;
    if i < n {
      var s := t.schedules[i];
      assert r.schedules[i] == s;
      assert ScheduleComplete(t, s);
      var kc :| 0 <= kc < m && t.cars[kc].carId == s.carId.value && t.cars[kc].scheduleId == s.scheduleId;
      assert r.cars[kc] == t.cars[kc];
      var kd :| 0 <= kd < d && t.dateRows[kd].scheduleId == s.scheduleId;
      assert r.dateRows[kd] == t.dateRows[kd];
    } else {
      assert r.schedules[i] == NewSchedule(req, scheduleId, carId);
      assert r.cars[m].carId == carId && r.cars[m].scheduleId == scheduleId;
      assert r.dateRows[d].scheduleId == scheduleId;
    }
  }

  /** Patching a freshly inserted schedule touches that row alone. */
  lemma PatchFreshSchedule(rows: seq<ScheduleRow>, row: ScheduleRow, carId: int)
    requires forall i :: 0 <= i < |rows| ==> rows[i].scheduleId < row.scheduleId
    ensures SetCarId(rows + [row], row.scheduleId, carId) == rows + [row.(carId := Some(carId))]
  {
  }

  /** The database: three tables and the identity counters of Schedules and CarDetails. */
  class Store {
    var schedules: seq<ScheduleRow>
    var cars: seq<CarRow>
    var dateRows: seq<DateRow>
    var nextScheduleId: int
    var nextCarId: int

    function Contents(): Tables
      reads this
    {
      Tables(schedules, cars, dateRows)
    }

    ghost predicate Valid()
      reads this
    {
      Consistent(Contents(), nextScheduleId, nextCarId)
    }

    constructor ()
      ensures Valid() && Contents() == Tables([], [], [])
    {
      schedules, cars, dateRows := [], [], [];
      nextScheduleId, nextCarId := 1, 1;
    }

    /** The `for ... of scheduledDates` loop: one insert per instant, stopping at
        the injected failure. */
    method InsertDates(scheduleId: int, items: seq<int>, fail: Option<FailPoint>) returns (ok: bool)
      modifies this`dateRows
      ensures ok <==> !(fail.Some? && fail.value.AtDateInsert? && fail.value.index < |items|)
      ensures ok ==> dateRows == old(dateRows) + DateRowsFor(scheduleId, items)
      ensures !ok ==> dateRows == old(dateRows) + DateRowsFor(scheduleId, items[..fail.value.index])
    {
      for i := 0 to |items|
        invariant dateRows == old(dateRows) + DateRowsFor(scheduleId, items[..i])
        invariant !(fail.Some? && fail.value.AtDateInsert? && fail.value.index < i)
      {
        if fail == Some(AtDateInsert(i)) {
          return false;
        }
        assert DateRowsFor(scheduleId, items[..i + 1]) == DateRowsFor(scheduleId, items[..i]) + [DateRow(scheduleId, items[i])];
        dateRows := dateRows + [DateRow(scheduleId, items[i])];
      }
      assert items[..|items|] == items;
      ok := true;
    }

    /** `POST /api/bookings`. */
    method Book(req: BookingRequest, fail: Option<FailPoint>) returns (status: int)
      requires Valid()
      modifies this
      ensures Valid()
      ensures status == BookingStatus(req, fail)
      ensures status == 201 ==>
        Contents() == Committed(old(Contents()), req, old(nextScheduleId), old(nextCarId))
      ensures status != 201 ==> Contents() == old(Contents())
      ensures nextScheduleId >= old(nextScheduleId) && nextCarId >= old(nextCarId)
    {
      if !IsComplete(req) {
        return 400;
      }
      var items := req.scheduledDates.items;
      ghost var s0, c0 := nextScheduleId, nextCarId;
      var snapshot := Contents();
      label attempt: {
        if fail == Some(AtBegin) { break attempt; }

        if fail == Some(AtScheduleInsert) { break attempt; }
        var scheduleId := nextScheduleId;
        nextScheduleId := nextScheduleId + 1;
        var header := ScheduleRow(scheduleId, req.userId.value, req.serviceId.value,
                                  req.scheduledPackage, StatusOf(req), None);
        schedules := schedules + [header];

        if fail == Some(AtCarInsert) { break attempt; }
        var carId := nextCarId;
        nextCarId := nextCarId + 1;
        cars := cars + [NewCar(req, scheduleId, carId)];

        if fail == Some(AtCarIdUpdate) { break attempt; }
        PatchFreshSchedule(snapshot.schedules, header, carId);
        schedules := SetCarId(schedules, scheduleId, carId);

        var ok := InsertDates(scheduleId, items, fail);
        if !ok { break attempt; }

        if fail == Some(AtCommit) { break attempt; }
        CommitKeepsConsistent(snapshot, req, scheduleId, carId);
        return 201;
      }
      schedules, cars, dateRows := snapshot.schedules, snapshot.cars, snapshot.dateRows;
      ConsistentUnderLargerCounters(snapshot, s0, c0, nextScheduleId, nextCarId);
      status := 500;
    }
  }
}
