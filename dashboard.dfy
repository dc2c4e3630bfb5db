/** The dashboard endpoint: the bearer-token guard and the read-back of a
    user's car details and of their schedules joined with their dates. Token
    verification is an oracle parameter. */
module Dashboard {
  import opened Wrappers
  import opened Seqs
  import opened Bookings

  /** `String.prototype.split` on a one-character separator. */
  function Split(s: string, sep: char): (parts: seq<string>)
    ensures |parts| >= 1
    ensures forall i :: 0 <= i < |parts| ==> sep !in parts[i]
  {
    if s == [] then [[]]
    else
      var rest := Split(s[1..], sep);
      if s[0] == sep then [[]] + rest
      else [[s[0]] + rest[0]] + rest[1..]
  }

  /** `Array.prototype.join` on a one-character separator. */
  function Join(parts: seq<string>, sep: char): string
    requires |parts| >= 1
  {
    if |parts| == 1 then parts[0] else parts[0] + [sep] + Join(parts[1..], sep)
  }

  /** Splitting loses nothing: joining the pieces gives the string back. */
  lemma {:induction false} JoinSplit(s: string, sep: char)
    ensures Join(Split(s, sep), sep) == s
  {
    if s != [] {
      var rest := Split(s[1..], sep);
      JoinSplit(s[1..], sep);
      var parts := Split(s, sep);
      if s[0] == sep {
        assert parts[1..] == rest;
        assert parts[0] == [];
      } else if |rest| == 1 {
        assert parts == [[s[0]] + rest[0]];
      } else {
        assert parts[1..] == rest[1..];
        assert Join(rest, sep) == rest[0] + [sep] + Join(rest[1..], sep);
      }
    }
  }

  /** A string without the separator splits into itself alone. */
  lemma {:induction false} SplitWithoutSeparator(s: string, sep: char)
    requires sep !in s
    ensures Split(s, sep) == [s]
  {
    if s != [] {
      SplitWithoutSeparator(s[1..], sep);
      assert [s[0]] + s[1..] == s;
    }
  }

  /** Splitting at a first separator: the piece before it, then the split of the rest. */
  lemma {:induction false} SplitAtFirstSeparator(a: string, sep: char, b: string)
    requires sep !in a
    ensures Split(a + [sep] + b, sep) == [a] + Split(b, sep)
  {
    var s := a + [sep] + b;
    if a == [] {
      assert s[0] == sep && s[1..] == b;
    } else {
      assert s[0] == a[0];
      assert s[1..] == a[1..] + [sep] + b;
      SplitAtFirstSeparator(a[1..], sep, b);
      assert [a[0]] + a[1..] == a;
    }
  }

  /** `req.headers.authorization?.split(' ')[1]`, kept only when truthy. */
  function BearerToken(header: Option<string>): (token: Option<string>)
    ensures header.None? ==> token.None?
    ensures token.Some? ==> token.value != [] && ' ' !in token.value
  {
    if header.None? then None
    else
      var parts := Split(header.value, ' ');
      if |parts| > 1 && parts[1] != [] then Some(parts[1]) else None
  }

  /** A header made of a scheme and one space yields what follows the space,
      when that is not empty; a trailing space alone (`"Bearer "`) yields none. */
  lemma BearerTokenOfHeader(scheme: string, token: string)
    requires ' ' !in scheme && ' ' !in token
    ensures BearerToken(Some(scheme + " " + token)) == if token != [] then Some(token) else None
  {
    SplitAtFirstSeparator(scheme, ' ', token);
    SplitWithoutSeparator(token, ' ');
  }

  /** Whatever follows the second space is ignored: the token is the field
      between the first and the second space, when that field is not empty. */
  lemma BearerTokenIsSecondField(scheme: string, token: string, trailer: string)
    requires ' ' !in scheme && ' ' !in token
    ensures BearerToken(Some(scheme + " " + token + " " + trailer)) == if token != [] then Some(token) else None
  {
    assert scheme + " " + token + " " + trailer == scheme + [' '] + (token + [' '] + trailer);
    SplitAtFirstSeparator(scheme, ' ', token + [' '] + trailer);
    SplitAtFirstSeparator(token, ' ', trailer);
  }

  /** A header without a space carries no token. */
  lemma NoSpaceNoToken(header: string)
    requires ' ' !in header
    ensures BearerToken(Some(header)) == None
  {
    SplitWithoutSeparator(header, ' ');
  }

  /** The car details the dashboard lists. */
  datatype CarSummary = CarSummary(carMake: string, carModel: string, registrationNumber: string,
                                   color: string, additionalNotes: Option<string>)

  /** A row of the schedules query. */
  datatype DashboardRow = DashboardRow(scheduleId: int, scheduledDateTime: int, status: string,
                                       scheduledPackage: Option<string>)

  datatype DashboardResponse =
    | Unauthorized                  // 401: no token
    | ServerError                   // 500: the token did not verify
    | Ok(userId: int, carDetails: seq<CarSummary>, schedules: seq<DashboardRow>)

  /** `c` is the projection of some CarDetails row of the user. */
  predicate SummarizedFrom(c: CarSummary, cars: seq<CarRow>, userId: int)
  {
    exists i :: 0 <= i < |cars| && cars[i].userId == userId && c == Summary(cars[i])
  }

  /** The car-details query: the user's CarDetails rows, projected, in table order. */
  function CarsOf(cars: seq<CarRow>, userId: int): (r: seq<CarSummary>)
    ensures forall k :: 0 <= k < |r| ==> SummarizedFrom(r[k], cars, userId)
    ensures forall i :: 0 <= i < |cars| && cars[i].userId == userId ==> Summary(cars[i]) in r
  {
    if cars == [] then []
    else
      var rest := CarsOf(cars[1..], userId);
      assert forall k :: 0 <= k < |rest| ==> SummarizedFrom(rest[k], cars, userId) by {
        forall k | 0 <= k < |rest| ensures SummarizedFrom(rest[k], cars, userId) {
          assert SummarizedFrom(rest[k], cars[1..], userId);
          var i :| 0 <= i < |cars[1..]| && cars[1..][i].userId == userId && rest[k] == Summary(cars[1..][i]);
          assert cars[i + 1] == cars[1..][i];
        }
      }
      assert forall i :: 1 <= i < |cars| && cars[i].userId == userId ==> Summary(cars[i]) in rest by {
        forall i | 1 <= i < |cars| && cars[i].userId == userId ensures Summary(cars[i]) in rest {
          assert cars[1..][i - 1] == cars[i];
        }
      }
      if cars[0].userId == userId then
        var r := [Summary(cars[0])] + rest;
        assert SummarizedFrom(r[0], cars, userId);
        assert forall k :: 1 <= k < |r| ==> r[k] == rest[k - 1];
        r
      else rest
  }

  /** The projection of car rows onto the dashboard's columns. */
  function Summaries(rows: seq<CarRow>): (r: seq<CarSummary>)
    ensures |r| == |rows|
    ensures forall k :: 0 <= k < |rows| ==> r[k] == Summary(rows[k])
  {
    if rows == [] then [] else [Summary(rows[0])] + Summaries(rows[1..])
  }

  /** The car-details query is the projection of exactly the rows the user
      filter keeps, in table order. */
  lemma {:induction false} CarsOfIsProjection(cars: seq<CarRow>, userId: int)
    ensures CarsOf(cars, userId) == Summaries(Filter((c: CarRow) => c.userId == userId, cars))
  {
    if cars != [] {
      var p := (c: CarRow) => c.userId == userId;
      CarsOfIsProjection(cars[1..], userId);
      var rest := Filter(p, cars[1..]);
      if p(cars[0]) {
        assert Filter(p, cars) == [cars[0]] + rest;
        assert ([cars[0]] + rest)[1..] == rest;
      } else {
        assert Filter(p, cars) == rest;
      }
    }
  }

  function Summary(c: CarRow): CarSummary
  {
    CarSummary(c.carMake, c.carModel, c.registrationNumber, c.color, c.additionalNotes)
  }

  /** The join condition of the schedules query for one date row and one schedule. */
  predicate Joins(sd: DateRow, s: ScheduleRow, userId: int)
  {
    sd.scheduleId == s.scheduleId && s.userId == userId
  }

  function JoinedRow(sd: DateRow, s: ScheduleRow): DashboardRow
  {
    DashboardRow(s.scheduleId, sd.dateTime, s.status, s.scheduledPackage)
  }

  /** `row` is the join of `sd` with some schedule of the user. */
  predicate JoinedFrom(row: DashboardRow, sd: DateRow, schedules: seq<ScheduleRow>, userId: int)
  {
    exists i :: 0 <= i < |schedules| && Joins(sd, schedules[i], userId) && row == JoinedRow(sd, schedules[i])
  }

  /** The result rows contributed by one date row: one per joining schedule. */
  function RowsFor(sd: DateRow, schedules: seq<ScheduleRow>, userId: int): (r: seq<DashboardRow>)
    ensures |r| <= |schedules|
    ensures forall k :: 0 <= k < |r| ==> JoinedFrom(r[k], sd, schedules, userId)
    ensures forall i :: 0 <= i < |schedules| && Joins(sd, schedules[i], userId) ==> JoinedRow(sd, schedules[i]) in r
  {
    if schedules == [] then []
    else
      var rest := RowsFor(sd, schedules[1..], userId);
      assert forall i :: 1 <= i < |schedules| && Joins(sd, schedules[i], userId) ==> JoinedRow(sd, schedules[i]) in rest by {
        forall i | 1 <= i < |schedules| && Joins(sd, schedules[i], userId) ensures JoinedRow(sd, schedules[i]) in rest {
          assert schedules[1..][i - 1] == schedules[i];
        }
      }
      assert forall k :: 0 <= k < |rest| ==> JoinedFrom(rest[k], sd, schedules, userId) by {
        forall k | 0 <= k < |rest| ensures JoinedFrom(rest[k], sd, schedules, userId) {
          assert JoinedFrom(rest[k], sd, schedules[1..], userId);
          var i :| 0 <= i < |schedules[1..]| && Joins(sd, schedules[1..][i], userId) && rest[k] == JoinedRow(sd, schedules[1..][i]);
          assert schedules[i + 1] == schedules[1..][i];
        }
      }
      if Joins(sd, schedules[0], userId) then
        var r := [JoinedRow(sd, schedules[0])] + rest;
        assert JoinedFrom(r[0], sd, schedules, userId);
        assert forall k :: 1 <= k < |r| ==> r[k] == rest[k - 1];
        r
      else rest
  }

  /** `ScheduledDates sd INNER JOIN Schedules s ON sd.ScheduleID = s.ScheduleID
      WHERE s.UserID = userId`, in date-row order: every row is a date row joined
      with a schedule of the user, and every such pair is listed. */
  function SchedulesOf(dateRows: seq<DateRow>, schedules: seq<ScheduleRow>, userId: int): (r: seq<DashboardRow>)
    ensures forall k :: 0 <= k < |r| ==> exists d :: 0 <= d < |dateRows| && JoinedFrom(r[k], dateRows[d], schedules, userId)
    ensures forall d, i :: 0 <= d < |dateRows| && 0 <= i < |schedules| && Joins(dateRows[d], schedules[i], userId) ==>
              JoinedRow(dateRows[d], schedules[i]) in r
  {
    if dateRows == [] then []
    else
      var head := RowsFor(dateRows[0], schedules, userId);
      var rest := SchedulesOf(dateRows[1..], schedules, userId);
      var r := head + rest;
      assert forall k :: 0 <= k < |r| ==> exists d :: 0 <= d < |dateRows| && JoinedFrom(r[k], dateRows[d], schedules, userId) by {
        forall k | 0 <= k < |r| ensures exists d :: 0 <= d < |dateRows| && JoinedFrom(r[k], dateRows[d], schedules, userId) {
          if k < |head| {
            assert r[k] == head[k] && JoinedFrom(r[k], dateRows[0], schedules, userId);
          } else {
            assert r[k] == rest[k - |head|];
            var d :| 0 <= d < |dateRows[1..]| && JoinedFrom(rest[k - |head|], dateRows[1..][d], schedules, userId);
            assert dateRows[d + 1] == dateRows[1..][d];
          }
        }
      }
      assert forall d, i :: 0 <= d < |dateRows| && 0 <= i < |schedules| && Joins(dateRows[d], schedules[i], userId) ==>
               JoinedRow(dateRows[d], schedules[i]) in r by {
        forall d, i | 0 <= d < |dateRows| && 0 <= i < |schedules| && Joins(dateRows[d], schedules[i], userId)
          ensures JoinedRow(dateRows[d], schedules[i]) in r
        {
          if d > 0 {
            assert dateRows[1..][d - 1] == dateRows[d];
          }
        }
      }
      r
  }

  /** Some schedule with the date row's id belongs to the user. */
  predicate OwnedBy(schedules: seq<ScheduleRow>, sd: DateRow, userId: int)
  {
    exists i :: 0 <= i < |schedules| && Joins(sd, schedules[i], userId)
  }

  /** Schedule identities are unique. */
  predicate UniqueIds(schedules: seq<ScheduleRow>)
  {
    forall i, j :: 0 <= i < j < |schedules| ==> schedules[i].scheduleId != schedules[j].scheduleId
  }

  /** With unique identities a date row joins at most one schedule: exactly one
      when its schedule is the user's, none otherwise. */
  lemma {:induction false} RowsForUnique(sd: DateRow, schedules: seq<ScheduleRow>, userId: int)
    requires UniqueIds(schedules)
    ensures |RowsFor(sd, schedules, userId)| == if OwnedBy(schedules, sd, userId) then 1 else 0
  {
    if schedules != [] {
      var tail := schedules[1..];
      assert UniqueIds(tail) by {
        forall i, j | 0 <= i < j < |tail| ensures tail[i].scheduleId != tail[j].scheduleId {
          assert tail[i] == schedules[i + 1] && tail[j] == schedules[j + 1];
        }
      }
      RowsForUnique(sd, tail, userId);
      if Joins(sd, schedules[0], userId) {
        assert !OwnedBy(tail, sd, userId) by {
          forall i | 0 <= i < |tail| ensures !Joins(sd, tail[i], userId) {
            assert tail[i] == schedules[i + 1];
          }
        }
      } else {
        assert OwnedBy(schedules, sd, userId) <==> OwnedBy(tail, sd, userId) by {
          if OwnedBy(schedules, sd, userId) {
            var i :| 0 <= i < |schedules| && Joins(sd, schedules[i], userId);
            assert i > 0 && tail[i - 1] == schedules[i];
          }
          if OwnedBy(tail, sd, userId) {
            var i :| 0 <= i < |tail| && Joins(sd, tail[i], userId);
            assert schedules[i + 1] == tail[i];
          }
        }
      }
    }
  }

  /** With unique schedule identities a date row determines its joined row. */
  lemma JoinedFromUnique(a: DashboardRow, b: DashboardRow, sd: DateRow, schedules: seq<ScheduleRow>, userId: int)
    requires UniqueIds(schedules)
    requires JoinedFrom(a, sd, schedules, userId) && JoinedFrom(b, sd, schedules, userId)
    ensures a == b
  {
    var i :| 0 <= i < |schedules| && Joins(sd, schedules[i], userId) && a == JoinedRow(sd, schedules[i]);
    var j :| 0 <= j < |schedules| && Joins(sd, schedules[j], userId) && b == JoinedRow(sd, schedules[j]);
    if i < j {
      assert schedules[i].scheduleId != schedules[j].scheduleId;
    } else if j < i {
      assert schedules[j].scheduleId != schedules[i].scheduleId;
    }
  }

  /** With unique schedule identities the dashboard lists exactly one row per
      ScheduledDates row whose schedule is the user's, position by position in
      date-row order, each being that date row joined with its schedule. */
  lemma {:induction false} OneRowPerOwnedDate(dateRows: seq<DateRow>, schedules: seq<ScheduleRow>, userId: int)
    requires UniqueIds(schedules)
    ensures var owned := Filter((sd: DateRow) => OwnedBy(schedules, sd, userId), dateRows);
      var r := SchedulesOf(dateRows, schedules, userId);
      && |r| == |owned|
      && forall k :: 0 <= k < |r| ==> JoinedFrom(r[k], owned[k], schedules, userId)
  {
    if dateRows != [] {
      var p := (sd: DateRow) => OwnedBy(schedules, sd, userId);
      var head := RowsFor(dateRows[0], schedules, userId);
      var rest := SchedulesOf(dateRows[1..], schedules, userId);
      RowsForUnique(dateRows[0], schedules, userId);
      OneRowPerOwnedDate(dateRows[1..], schedules, userId);
      if p(dateRows[0]) {
        assert head == [head[0]];
        PrependJoined(head[0], dateRows[0], rest, Filter(p, dateRows[1..]), schedules, userId);
      } else {
        assert head == [];
      }
    }
  }

  /** One joined row in front of a position-wise joined list. */
  lemma PrependJoined(row: DashboardRow, sd: DateRow, rest: seq<DashboardRow>, owned: seq<DateRow>,
                      schedules: seq<ScheduleRow>, userId: int)
    requires JoinedFrom(row, sd, schedules, userId)
    requires |rest| == |owned|
    requires forall k :: 0 <= k < |rest| ==> JoinedFrom(rest[k], owned[k], schedules, userId)
    ensures forall k :: 0 <= k < |rest| + 1 ==> JoinedFrom(([row] + rest)[k], ([sd] + owned)[k], schedules, userId)
  {
    forall k | 0 <= k < |rest| + 1 ensures JoinedFrom(([row] + rest)[k], ([sd] + owned)[k], schedules, userId) {
      if k > 0 {
        assert ([row] + rest)[k] == rest[k - 1] && ([sd] + owned)[k] == owned[k - 1];
      }
    }
  }

  /** `GET /api/dashboard`: 401 without a token, 500 when the token does not
      verify, otherwise the verified user's cars and joined schedule rows. */
  function GetDashboard(header: Option<string>, verify: string -> Option<int>, t: Tables): (r: DashboardResponse)
    ensures BearerToken(header).None? <==> r == Unauthorized
    ensures r == ServerError <==> BearerToken(header).Some? && verify(BearerToken(header).value).None?
    ensures r.Ok? ==>
      && verify(BearerToken(header).value) == Some(r.userId)
      && r.carDetails == CarsOf(t.cars, r.userId)
      && r.schedules == SchedulesOf(t.dateRows, t.schedules, r.userId)
  {
    match BearerToken(header)
    case None => Unauthorized
    case Some(token) =>
      match verify(token)
      case None => ServerError
      case Some(userId) => Ok(userId, CarsOf(t.cars, userId), SchedulesOf(t.dateRows, t.schedules, userId))
  }

  /** On a consistent store the dashboard lists the projection of exactly the
      user's car rows, and exactly one row per date of the user's schedules, in
      date-row order, each that date joined with its schedule. */
  lemma DashboardOfConsistentStore(header: Option<string>, verify: string -> Option<int>, t: Tables, s: int, c: int)
    requires Consistent(t, s, c)
    requires GetDashboard(header, verify, t).Ok?
    ensures var r := GetDashboard(header, verify, t);
      var owned := Filter((sd: DateRow) => OwnedBy(t.schedules, sd, r.userId), t.dateRows);
      && r.carDetails == Summaries(Filter((row: CarRow) => row.userId == r.userId, t.cars))
      && |r.schedules| == |owned|
      && forall k :: 0 <= k < |r.schedules| ==> JoinedFrom(r.schedules[k], owned[k], t.schedules, r.userId)
  {
    var userId := GetDashboard(header, verify, t).userId;
    CarsOfIsProjection(t.cars, userId);
    OneRowPerOwnedDate(t.dateRows, t.schedules, userId);
  }
}
