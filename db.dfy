/**
 * The SQLite tables of the booking application and the queries and writes of db/db.go over
 * them. Tables are sequences of rows in row order; ids come from AUTOINCREMENT counters.
 * Foreign keys are enforced (the connection string sets `_fk=true`), so a trip must name an
 * existing vehicle, a booking an existing trip, deleting a trip deletes its bookings, and
 * deleting a vehicle that a trip still names fails (its ON DELETE SET NULL meets the
 * NOT NULL constraint on trips.vehicle_id).
 */
module Db {
  import opened Wrappers
  import opened GoText

  const UnderRepair: string := "Under repair"
  const Cancelled: string := "Cancelled"
  const DefaultRole: string := "Operator"

  datatype Vehicle = Vehicle(id: int, number: string, kind: string, capacity: int, status: string,
                             lastMaintenance: Option<string>, nextMaintenance: Option<string>,
                             notes: string)

  datatype Trip = Trip(id: int, origin: string, destination: string, vehicleId: int,
                       departure: string, arrival: string)

  datatype Booking = Booking(id: int, tripId: int, passenger: string, socialId: string,
                             phone: string, dateOfBirth: string, status: string)

  datatype User = User(id: int, username: string, passwordHash: string, dateOfBirth: string,
                       ssn: string, email: string, role: string)

  datatype ResetCode = ResetCode(userId: int, code: string, expiresAt: int, used: bool)

  datatype SecurityQuestion = SecurityQuestion(id: int, userId: int, question: string,
                                               answerHash: string)

  // ===========================================================================
  // Vehicle availability (IsVehicleAvailableForTripEdit, GetAvailableVehicles)
  // ===========================================================================

  /** `t.departure_time < newArrival AND t.arrival_time > newDeparture`: strict on both ends. */
  predicate Overlaps(t: Trip, dep: string, arr: string)
  {
    StrLess(t.departure, arr) && StrLess(dep, t.arrival)
  }

  /** `next_maintenance_date IS NULL OR next_maintenance_date < dep OR next_maintenance_date > arr` */
  predicate MaintenanceClear(next: Option<string>, dep: string, arr: string)
  {
    next.None? || StrLess(next.value, dep) || StrLess(arr, next.value)
  }

  predicate VehicleUsable(v: Vehicle, dep: string, arr: string)
  {
    v.status != UnderRepair && MaintenanceClear(v.nextMaintenance, dep, arr)
  }

  /** A trip that blocks vehicle `vid` for the window, unless its id is the excluded one. */
  predicate Conflicts(t: Trip, vid: int, dep: string, arr: string, exclude: Option<int>)
  {
    t.vehicleId == vid && Overlaps(t, dep, arr) && (exclude.None? || t.id != exclude.value)
  }

  /** The NOT EXISTS / NOT IN sub-query over the trips table. */
  function NoConflict(trips: seq<Trip>, vid: int, dep: string, arr: string, exclude: Option<int>): (r: bool)
    ensures r <==> forall j :: 0 <= j < |trips| ==> !Conflicts(trips[j], vid, dep, arr, exclude)
  {
    if |trips| == 0 then true
    else !Conflicts(trips[0], vid, dep, arr, exclude) && NoConflict(trips[1..], vid, dep, arr, exclude)
  }

  /** Number of vehicle rows with id `vid` passing the status and maintenance filters. */
  function CountUsable(vehicles: seq<Vehicle>, vid: int, dep: string, arr: string): (n: nat)
    ensures n <= |vehicles|
    ensures n > 0 <==> exists i :: 0 <= i < |vehicles| && vehicles[i].id == vid && VehicleUsable(vehicles[i], dep, arr)
  {
    if |vehicles| == 0 then 0
    else
      var rest := CountUsable(vehicles[1..], vid, dep, arr);
      assert forall i :: 1 <= i < |vehicles| ==> vehicles[i] == vehicles[1..][i - 1];
      (if vehicles[0].id == vid && VehicleUsable(vehicles[0], dep, arr) then 1 else 0) + rest
  }

  /**
   * IsVehicleAvailableForTripEdit: `COUNT(*) > 0` over the vehicle row with that id, where the
   * vehicle is not 'Under repair', its maintenance date is outside [dep, arr], and no trip of
   * that vehicle other than `tripId` overlaps the window.
   */
  function IsVehicleAvailableForTripEdit(vehicles: seq<Vehicle>, trips: seq<Trip>, vid: int,
                                         dep: string, arr: string, tripId: int): (r: bool)
    ensures r <==>
      (exists i :: 0 <= i < |vehicles| && vehicles[i].id == vid
                   && vehicles[i].status != UnderRepair
                   && MaintenanceClear(vehicles[i].nextMaintenance, dep, arr))
      && (forall j :: 0 <= j < |trips| ==>
            !(trips[j].vehicleId == vid && trips[j].id != tripId
              && StrLess(trips[j].departure, arr) && StrLess(dep, trips[j].arrival)))
  {
    var count := if NoConflict(trips, vid, dep, arr, Some(tripId)) then CountUsable(vehicles, vid, dep, arr) else 0;
    count > 0
  }

  /** The WHERE clause of GetAvailableVehicles for one vehicle row (no trip is excluded). */
  predicate ListedAvailable(v: Vehicle, trips: seq<Trip>, dep: string, arr: string)
  {
    VehicleUsable(v, dep, arr) && NoConflict(trips, v.id, dep, arr, None)
  }

  function FilterAvailable(vehicles: seq<Vehicle>, trips: seq<Trip>, dep: string, arr: string): (r: seq<Vehicle>)
    ensures forall v :: multiset(r)[v] == if ListedAvailable(v, trips, dep, arr) then multiset(vehicles)[v] else 0
  {
    if |vehicles| == 0 then []
    else
      var rest := FilterAvailable(vehicles[1..], trips, dep, arr);
      assert vehicles == [vehicles[0]] + vehicles[1..];
      if ListedAvailable(vehicles[0], trips, dep, arr) then [vehicles[0]] + rest else rest
  }

  predicate SortedByNumber(vs: seq<Vehicle>)
  {
    forall i, j :: 0 <= i < j < |vs| ==> StrLessEq(vs[i].number, vs[j].number)
  }

  function InsertByNumber(v: Vehicle, sorted: seq<Vehicle>): (r: seq<Vehicle>)
    requires SortedByNumber(sorted)
    ensures SortedByNumber(r)
    ensures multiset(r) == multiset(sorted) + multiset{v}
  {
    if |sorted| == 0 then [v]
    else if StrLessEq(v.number, sorted[0].number) then
      InsertFirstSorted(v, sorted);
      [v] + sorted
    else
      var rest := InsertByNumber(v, sorted[1..]);
      assert sorted == [sorted[0]] + sorted[1..];
      InsertLaterSorted(v, sorted, rest);
      [sorted[0]] + rest
  }

  lemma InsertFirstSorted(v: Vehicle, sorted: seq<Vehicle>)
    requires SortedByNumber(sorted) && |sorted| > 0 && StrLessEq(v.number, sorted[0].number)
    ensures SortedByNumber([v] + sorted)
  {
    assert forall j :: 0 < j < |[v] + sorted| ==> ([v] + sorted)[j] == sorted[j - 1];
    assert forall j :: 0 <= j < |sorted| ==> StrLessEq(v.number, sorted[j].number) by {
      forall j | 0 <= j < |sorted| ensures StrLessEq(v.number, sorted[j].number) {
        if v.number != sorted[0].number && sorted[0].number != sorted[j].number {
          StrLessTransitive(v.number, sorted[0].number, sorted[j].number);
        }
      }
    }
  }

  lemma InsertLaterSorted(v: Vehicle, sorted: seq<Vehicle>, rest: seq<Vehicle>)
    requires SortedByNumber(sorted) && |sorted| > 0 && !StrLessEq(v.number, sorted[0].number)
    requires SortedByNumber(rest) && multiset(rest) == multiset(sorted[1..]) + multiset{v}
    ensures SortedByNumber([sorted[0]] + rest)
  {
    StrLessTotal(v.number, sorted[0].number);
    assert forall x :: x in multiset(rest) ==> StrLessEq(sorted[0].number, x.number) by {
      forall x | x in multiset(rest) ensures StrLessEq(sorted[0].number, x.number) {
        assert x == v || x in multiset(sorted[1..]);
        if x != v {
          var k :| 0 <= k < |sorted[1..]| && sorted[1..][k] == x;
          assert sorted[k + 1] == x;
        }
      }
    }
    assert forall j :: 0 <= j < |rest| ==> rest[j] in multiset(rest);
    assert forall j :: 0 < j < |[sorted[0]] + rest| ==> ([sorted[0]] + rest)[j] == rest[j - 1];
  }

  function SortByNumber(vs: seq<Vehicle>): (r: seq<Vehicle>)
    ensures SortedByNumber(r)
    ensures multiset(r) == multiset(vs)
  {
    if |vs| == 0 then []
    else
      assert vs == [vs[0]] + vs[1..];
      InsertByNumber(vs[0], SortByNumber(vs[1..]))
  }

  /**
   * GetAvailableVehicles: the vehicles passing the status, maintenance and overlap filters,
   * every one as often as in the table, ordered by vehicle_number.
   */
  function GetAvailableVehicles(vehicles: seq<Vehicle>, trips: seq<Trip>, dep: string, arr: string): (r: seq<Vehicle>)
    ensures SortedByNumber(r)
    ensures forall v ::
              multiset(r)[v] ==
                (if v.status != UnderRepair && MaintenanceClear(v.nextMaintenance, dep, arr)
                    && (forall j :: 0 <= j < |trips| ==> !(trips[j].vehicleId == v.id && Overlaps(trips[j], dep, arr)))
                 then multiset(vehicles)[v] else 0)
  {
    SortByNumber(FilterAvailable(vehicles, trips, dep, arr))
  }

  // ===========================================================================
  // Properties of the availability rules
  // ===========================================================================

  /** Windows that only touch do not conflict: the comparisons are strict. */
  lemma TouchingWindowsDoNotOverlap(t: Trip, dep: string, arr: string)
    requires t.arrival == dep || t.departure == arr
    ensures !Overlaps(t, dep, arr)
  {
    StrLessIrreflexive(dep);
    StrLessIrreflexive(arr);
  }

  /** The overlap test is symmetric in the two windows. */
  lemma OverlapSymmetric(t: Trip, u: Trip)
    ensures Overlaps(t, u.departure, u.arrival) == Overlaps(u, t.departure, t.arrival)
  {
  }

  /** A maintenance date blocks exactly when it lies in the closed range [dep, arr]. */
  lemma MaintenanceBlocksInClosedRange(d: string, dep: string, arr: string)
    ensures !MaintenanceClear(Some(d), dep, arr) <==> StrLessEq(dep, d) && StrLessEq(d, arr)
  {
    if d != dep { StrLessTotal(d, dep); }
    if d != arr { StrLessTotal(d, arr); }
    if StrLess(d, dep) { StrLessAsymmetric(d, dep); StrLessIrreflexive(d); }
    if StrLess(arr, d) { StrLessAsymmetric(arr, d); StrLessIrreflexive(d); }
  }

  /** An omitted maintenance date is stored as "", which blocks only a window departing at "". */
  lemma EmptyMaintenanceDate(dep: string, arr: string)
    ensures MaintenanceClear(Some(""), dep, arr) <==> dep != ""
  {
    EmptyIsLeast(dep);
    EmptyIsLeast(arr);
  }

  /** Whatever the excluded trip's vehicle and window are, the edit check ignores it. */
  lemma {:induction false} ExcludedTripNeverConflicts(vehicles: seq<Vehicle>, trips: seq<Trip>, k: nat,
                                                      t: Trip, vid: int, dep: string, arr: string)
    requires k < |trips| && trips[k].id == t.id
    ensures IsVehicleAvailableForTripEdit(vehicles, trips[k := t], vid, dep, arr, t.id)
         == IsVehicleAvailableForTripEdit(vehicles, trips, vid, dep, arr, t.id)
  {
    var trips' := trips[k := t];
    assert forall j :: 0 <= j < |trips| && j != k ==> trips'[j] == trips[j];
  }

  /**
   * The listing and the edit check agree: with unique vehicle ids and an excluded id that no
   * trip has, a vehicle is listed iff the edit check accepts its id.
   */
  lemma ListingAgreesWithEditCheck(vehicles: seq<Vehicle>, trips: seq<Trip>, v: Vehicle,
                                   dep: string, arr: string, tripId: int)
    requires forall i, j :: 0 <= i < j < |vehicles| ==> vehicles[i].id != vehicles[j].id
    requires forall j :: 0 <= j < |trips| ==> trips[j].id != tripId
    requires v in vehicles
    ensures v in GetAvailableVehicles(vehicles, trips, dep, arr)
        <==> IsVehicleAvailableForTripEdit(vehicles, trips, v.id, dep, arr, tripId)
  {
    var r := GetAvailableVehicles(vehicles, trips, dep, arr);
    assert v in multiset(vehicles);
    assert v in r <==> v in multiset(r);
    if IsVehicleAvailableForTripEdit(vehicles, trips, v.id, dep, arr, tripId) {
      var i :| 0 <= i < |vehicles| && vehicles[i].id == v.id && vehicles[i].status != UnderRepair
               && MaintenanceClear(vehicles[i].nextMaintenance, dep, arr);
      var i0 :| 0 <= i0 < |vehicles| && vehicles[i0] == v;
      assert vehicles[i] == v;
    }
  }

  // ===========================================================================
  // Booking counts and seat capacity
  // ===========================================================================

  predicate IsActive(b: Booking)
  {
    b.status != Cancelled
  }

  predicate ActiveOn(b: Booking, tripId: int)
  {
    b.tripId == tripId && IsActive(b)
  }

  /** GetTripBookingsCount: bookings of the trip whose status is not 'Cancelled'. */
  function GetTripBookingsCount(bookings: seq<Booking>, tripId: int): (n: nat)
    ensures n <= |bookings|
    ensures n == 0 <==> forall i :: 0 <= i < |bookings| ==> !ActiveOn(bookings[i], tripId)
  {
    if |bookings| == 0 then 0
    else
      var rest := GetTripBookingsCount(bookings[1..], tripId);
      assert forall i :: 1 <= i < |bookings| ==> bookings[i] == bookings[1..][i - 1];
      (if ActiveOn(bookings[0], tripId) then 1 else 0) + rest
  }

  /** Appending a row adds one exactly when the row is an active booking of the trip. */
  lemma {:induction false} CountAppend(bookings: seq<Booking>, b: Booking, tripId: int)
    ensures GetTripBookingsCount(bookings + [b], tripId)
         == GetTripBookingsCount(bookings, tripId) + (if ActiveOn(b, tripId) then 1 else 0)
  {
    if |bookings| > 0 {
      assert (bookings + [b])[1..] == bookings[1..] + [b];
      CountAppend(bookings[1..], b, tripId);
    }
  }

  /** Changing the status of the single row with id `bid` moves the count by at most one. */
  lemma {:induction false} CountAfterStatusChange(bookings: seq<Booking>, k: nat, status: string, tripId: int)
    requires k < |bookings|
    ensures var b := bookings[k];
      GetTripBookingsCount(bookings[k := b.(status := status)], tripId)
      == GetTripBookingsCount(bookings, tripId)
         - (if ActiveOn(b, tripId) then 1 else 0)
         + (if b.tripId == tripId && status != Cancelled then 1 else 0)
  {
    if k > 0 {
      assert bookings[k := bookings[k].(status := status)][1..] == bookings[1..][k - 1 := bookings[k].(status := status)];
      CountAfterStatusChange(bookings[1..], k - 1, status, tripId);
    } else {
      assert bookings[0 := bookings[0].(status := status)][1..] == bookings[1..];
    }
  }

  /** Number of trip rows with the given id that use the vehicle (the JOIN's multiplicity). */
  function TripJoinCount(trips: seq<Trip>, tripId: int, vid: int): (n: nat)
    ensures n == 0 <==> forall j :: 0 <= j < |trips| ==> !(trips[j].id == tripId && trips[j].vehicleId == vid)
  {
    if |trips| == 0 then 0
    else
      var rest := TripJoinCount(trips[1..], tripId, vid);
      assert forall j :: 1 <= j < |trips| ==> trips[j] == trips[1..][j - 1];
      (if trips[0].id == tripId && trips[0].vehicleId == vid then 1 else 0) + rest
  }

  /** GetVehicleBookingsCount: active bookings joined to trips that use the vehicle. */
  function GetVehicleBookingsCount(trips: seq<Trip>, bookings: seq<Booking>, vid: int): (n: nat)
    ensures n == 0 <==> forall i, j :: 0 <= i < |bookings| && 0 <= j < |trips| ==>
              !(IsActive(bookings[i]) && trips[j].id == bookings[i].tripId && trips[j].vehicleId == vid)
  {
    if |bookings| == 0 then 0
    else
      var rest := GetVehicleBookingsCount(trips, bookings[1..], vid);
      assert forall i :: 1 <= i < |bookings| ==> bookings[i] == bookings[1..][i - 1];
      (if IsActive(bookings[0]) then TripJoinCount(trips, bookings[0].tripId, vid) else 0) + rest
  }

  /** The per-trip counts summed over every trip row that uses the vehicle. */
  function SumTripCounts(trips: seq<Trip>, bookings: seq<Booking>, vid: int): nat
  {
    if |trips| == 0 then 0
    else (if trips[0].vehicleId == vid then GetTripBookingsCount(bookings, trips[0].id) else 0)
         + SumTripCounts(trips[1..], bookings, vid)
  }

  lemma {:induction false} SumTripCountsStep(trips: seq<Trip>, b: Booking, bookings: seq<Booking>, vid: int)
    ensures SumTripCounts(trips, [b] + bookings, vid)
         == (if IsActive(b) then TripJoinCount(trips, b.tripId, vid) else 0) + SumTripCounts(trips, bookings, vid)
  {
    if |trips| > 0 {
      assert ([b] + bookings)[1..] == bookings;
      SumTripCountsStep(trips[1..], b, bookings, vid);
    }
  }

  /** The vehicle count is the trip count summed over the vehicle's trips. */
  lemma {:induction false} VehicleCountIsSumOfTripCounts(trips: seq<Trip>, bookings: seq<Booking>, vid: int)
    ensures GetVehicleBookingsCount(trips, bookings, vid) == SumTripCounts(trips, bookings, vid)
  {
    if |bookings| == 0 {
      SumOfEmpty(trips, vid);
    } else {
      assert bookings == [bookings[0]] + bookings[1..];
      SumTripCountsStep(trips, bookings[0], bookings[1..], vid);
      VehicleCountIsSumOfTripCounts(trips, bookings[1..], vid);
    }
  }

  lemma {:induction false} SumOfEmpty(trips: seq<Trip>, vid: int)
    ensures SumTripCounts(trips, [], vid) == 0
  {
    if |trips| > 0 { SumOfEmpty(trips[1..], vid); }
  }

  /** First vehicle row with the id. */
  function FindVehicle(vehicles: seq<Vehicle>, vid: int): (r: Option<Vehicle>)
    ensures r.None? <==> forall j :: 0 <= j < |vehicles| ==> vehicles[j].id != vid
    ensures r.Some? ==> r.value in vehicles && r.value.id == vid
  {
    if |vehicles| == 0 then None
    else if vehicles[0].id == vid then Some(vehicles[0])
    else
      assert forall j :: 1 <= j < |vehicles| ==> vehicles[j] == vehicles[1..][j - 1];
      FindVehicle(vehicles[1..], vid)
  }

  /** GetTripVehicleCapacity: capacity of the vehicle joined to the trip, or "trip not found". */
  function GetTripVehicleCapacity(trips: seq<Trip>, vehicles: seq<Vehicle>, tripId: int): (r: Result<int>)
    ensures r.Err? <==> forall i, j :: 0 <= i < |trips| && 0 <= j < |vehicles| ==>
              !(trips[i].id == tripId && vehicles[j].id == trips[i].vehicleId)
    ensures r.Err? ==> r.message == TripNotFound
    ensures r.Ok? ==> exists i, j :: 0 <= i < |trips| && 0 <= j < |vehicles| && trips[i].id == tripId
                       && vehicles[j].id == trips[i].vehicleId && vehicles[j].capacity == r.value
  {
    if |trips| == 0 then Err(TripNotFound)
    else
      var v := if trips[0].id == tripId then FindVehicle(vehicles, trips[0].vehicleId) else None;
      if v.Some? then
        var j :| 0 <= j < |vehicles| && vehicles[j] == v.value;
        Ok(v.value.capacity)
      else
        var rest := GetTripVehicleCapacity(trips[1..], vehicles, tripId);
        assert forall i :: 1 <= i < |trips| ==> trips[i] == trips[1..][i - 1];
        rest
  }

  /** CheckTripAvailability: `activeCount < capacity`, or the capacity lookup's error. */
  function CheckTripAvailability(trips: seq<Trip>, vehicles: seq<Vehicle>, bookings: seq<Booking>, tripId: int): (r: Result<bool>)
    ensures r.Err? <==> GetTripVehicleCapacity(trips, vehicles, tripId).Err?
    ensures r.Err? ==> r.message == TripNotFound
  {
    match GetTripVehicleCapacity(trips, vehicles, tripId)
    case Err(m) => Err(m)
    case Ok(capacity) => Ok(GetTripBookingsCount(bookings, tripId) < capacity)
  }

  /**
   * Admission keeps a trip within capacity: when the check says true, adding one more active
   * booking of the trip leaves the active count at most the capacity; when it says false, the
   * trip is already full.
   */
  lemma AdmissionWithinCapacity(trips: seq<Trip>, vehicles: seq<Vehicle>, bookings: seq<Booking>, b: Booking)
    requires CheckTripAvailability(trips, vehicles, bookings, b.tripId).Ok?
    ensures var capacity := GetTripVehicleCapacity(trips, vehicles, b.tripId).value;
      (CheckTripAvailability(trips, vehicles, bookings, b.tripId).value ==>
         GetTripBookingsCount(bookings + [b], b.tripId) <= capacity)
      && (!CheckTripAvailability(trips, vehicles, bookings, b.tripId).value ==>
         GetTripBookingsCount(bookings, b.tripId) >= capacity)
  {
    CountAppend(bookings, b, b.tripId);
  }

  /**
   * Re-activating a cancelled booking is never refused on capacity: on a full trip it takes the
   * active count one above the capacity.
   */
  lemma ReactivationCanExceedCapacity(bookings: seq<Booking>, k: nat, status: string, capacity: int)
    requires k < |bookings| && bookings[k].status == Cancelled && status != Cancelled
    requires GetTripBookingsCount(bookings, bookings[k].tripId) == capacity
    ensures GetTripBookingsCount(bookings[k := bookings[k].(status := status)], bookings[k].tripId) == capacity + 1
  {
    CountAfterStatusChange(bookings, k, status, bookings[k].tripId);
  }

  // ===========================================================================
  // Reset codes (StoreResetCode, ValidateResetCode, MarkResetCodeUsed)
  // ===========================================================================

  predicate CodeLive(rc: ResetCode, code: string, now: int)
  {
    rc.code == code && !rc.used && rc.expiresAt > now
  }

  /** ValidateResetCode: the user of the first row with the code, `used = 0`, `expires_at > now`. */
  function ValidateResetCode(codes: seq<ResetCode>, code: string, now: int): (r: Result<int>)
    ensures r.Ok? <==> exists i :: 0 <= i < |codes| && CodeLive(codes[i], code, now)
    ensures r.Ok? ==> exists i :: 0 <= i < |codes| && CodeLive(codes[i], code, now) && codes[i].userId == r.value
                                  && forall k :: 0 <= k < i ==> !CodeLive(codes[k], code, now)
    ensures r.Err? ==> r.message == "invalid or expired reset code"
  {
    if |codes| == 0 then Err("invalid or expired reset code")
    else if CodeLive(codes[0], code, now) then Ok(codes[0].userId)
    else
      var rest := ValidateResetCode(codes[1..], code, now);
      assert forall i :: 1 <= i < |codes| ==> codes[i] == codes[1..][i - 1];
      if rest.Ok? then
        var i :| 0 <= i < |codes[1..]| && CodeLive(codes[1..][i], code, now) && codes[1..][i].userId == rest.value
                 && forall k :: 0 <= k < i ==> !CodeLive(codes[1..][k], code, now);
        assert forall k :: 0 <= k < i + 1 ==> !CodeLive(codes[k], code, now) by {
          forall k | 0 < k < i + 1 ensures !CodeLive(codes[k], code, now) {
            assert codes[k] == codes[1..][k - 1];
          }
        }
        rest
      else rest
  }

  /** `UPDATE reset_codes SET used = 1 WHERE code = ?` */
  function MarkCodeUsed(codes: seq<ResetCode>, code: string): (r: seq<ResetCode>)
    ensures |r| == |codes|
    ensures forall i :: 0 <= i < |codes| ==> r[i] == if codes[i].code == code then codes[i].(used := true) else codes[i]
  {
    seq(|codes|, i requires 0 <= i < |codes| => if codes[i].code == code then codes[i].(used := true) else codes[i])
  }

  /** After MarkResetCodeUsed, the code never validates again. */
  lemma MarkedCodeIsRejected(codes: seq<ResetCode>, code: string, now: int)
    ensures ValidateResetCode(MarkCodeUsed(codes, code), code, now).Err?
  {
    var m := MarkCodeUsed(codes, code);
    assert forall i :: 0 <= i < |m| ==> !CodeLive(m[i], code, now);
  }

  /** A freshly stored code validates for its owner until it expires, unless an older live row with the same code comes first. */
  lemma StoredCodeValidates(codes: seq<ResetCode>, userId: int, code: string, expiresAt: int, now: int)
    requires forall i :: 0 <= i < |codes| ==> !CodeLive(codes[i], code, now)
    ensures ValidateResetCode(codes + [ResetCode(userId, code, expiresAt, false)], code, now)
         == if now < expiresAt then Ok(userId) else Err("invalid or expired reset code")
  {
    var c' := codes + [ResetCode(userId, code, expiresAt, false)];
    assert forall i :: 0 <= i < |codes| ==> c'[i] == codes[i];
    assert c'[|codes|] == ResetCode(userId, code, expiresAt, false);
  }

  // ===========================================================================
  // Users, vehicles and the booking list query
  // ===========================================================================

  /** CheckEmailExists: `COUNT(*) FROM users WHERE email = ?` is positive. */
  predicate EmailExists(users: seq<User>, email: string)
  {
    exists i :: 0 <= i < |users| && users[i].email == email
  }

  /** First user row with the email (GetUserByEmail's QueryRow). */
  function FindUserByEmail(users: seq<User>, email: string): (r: Option<User>)
    ensures r.None? <==> !EmailExists(users, email)
    ensures r.Some? ==> r.value in users && r.value.email == email
  {
    if |users| == 0 then None
    else if users[0].email == email then Some(users[0])
    else
      assert forall j :: 1 <= j < |users| ==> users[j] == users[1..][j - 1];
      FindUserByEmail(users[1..], email)
  }

  /** First user row with the username (GetUserByUsername's QueryRow). */
  function FindUserByUsername(users: seq<User>, username: string): (r: Option<User>)
    ensures r.None? <==> !UsernameExists(users, username)
    ensures r.Some? ==> r.value in users && r.value.username == username
  {
    if |users| == 0 then None
    else if users[0].username == username then Some(users[0])
    else
      assert forall j :: 1 <= j < |users| ==> users[j] == users[1..][j - 1];
      FindUserByUsername(users[1..], username)
  }

  predicate UsernameTaken(users: seq<User>, username: string, exceptId: int)
  {
    exists i :: 0 <= i < |users| && users[i].username == username && users[i].id != exceptId
  }

  predicate VehicleNumberTaken(vehicles: seq<Vehicle>, number: string, exceptId: int)
  {
    exists i :: 0 <= i < |vehicles| && vehicles[i].number == number && vehicles[i].id != exceptId
  }

  /** First security question row of the user (GetSecurityQuestionByUserID). */
  function FindSecurityQuestion(questions: seq<SecurityQuestion>, userId: int): (r: Option<SecurityQuestion>)
    ensures r.None? <==> forall j :: 0 <= j < |questions| ==> questions[j].userId != userId
    ensures r.Some? ==> r.value in questions && r.value.userId == userId
  {
    if |questions| == 0 then None
    else if questions[0].userId == userId then Some(questions[0])
    else
      assert forall j :: 1 <= j < |questions| ==> questions[j] == questions[1..][j - 1];
      FindSecurityQuestion(questions[1..], userId)
  }

  /** First trip row with the id (`SELECT ... FROM trips WHERE id = ?`). */
  function FindTrip(trips: seq<Trip>, tripId: int): (r: Option<Trip>)
    ensures r.None? <==> !HasTrip(trips, tripId)
    ensures r.Some? ==> r.value in trips && r.value.id == tripId
  {
    if |trips| == 0 then None
    else if trips[0].id == tripId then Some(trips[0])
    else
      assert forall j :: 1 <= j < |trips| ==> trips[j] == trips[1..][j - 1];
      FindTrip(trips[1..], tripId)
  }

  /** First booking row with the id (`SELECT status, trip_id FROM bookings WHERE id = ?`). */
  function FindBooking(bookings: seq<Booking>, bookingId: int): (r: Option<Booking>)
    ensures r.None? <==> forall j :: 0 <= j < |bookings| ==> bookings[j].id != bookingId
    ensures r.Some? ==> r.value in bookings && r.value.id == bookingId
  {
    if |bookings| == 0 then None
    else if bookings[0].id == bookingId then Some(bookings[0])
    else
      assert forall j :: 1 <= j < |bookings| ==> bookings[j] == bookings[1..][j - 1];
      FindBooking(bookings[1..], bookingId)
  }

  predicate HasVehicle(vehicles: seq<Vehicle>, vid: int)
  {
    exists j :: 0 <= j < |vehicles| && vehicles[j].id == vid
  }

  predicate HasTrip(trips: seq<Trip>, tripId: int)
  {
    exists j :: 0 <= j < |trips| && trips[j].id == tripId
  }

  predicate TripUsesVehicle(trips: seq<Trip>, vid: int)
  {
    exists j :: 0 <= j < |trips| && trips[j].vehicleId == vid
  }

  // Row deletions (DELETE ... WHERE), keeping row order.

  function RemoveVehicleRows(vehicles: seq<Vehicle>, vid: int): (r: seq<Vehicle>)
    ensures forall v :: v in r <==> v in vehicles && v.id != vid
    ensures VehicleIdsIncreasing(vehicles) ==> VehicleIdsIncreasing(r)
  {
    if |vehicles| == 0 then []
    else
      var rest := RemoveVehicleRows(vehicles[1..], vid);
      assert forall v :: v in vehicles[1..] ==> v in vehicles;
      assert vehicles == [vehicles[0]] + vehicles[1..];
      if vehicles[0].id != vid then
        assert VehicleIdsIncreasing(vehicles) ==> VehicleIdsIncreasing([vehicles[0]] + rest) by {
          if VehicleIdsIncreasing(vehicles) {
            VehicleTailIncreasing(vehicles);
            VehicleConsIncreasing(vehicles[0], rest);
          }
        }
        [vehicles[0]] + rest
      else rest
  }

  // Row ids in a table strictly increase (AUTOINCREMENT appends larger ids).

  predicate VehicleIdsIncreasing(vehicles: seq<Vehicle>)
  {
    forall i, j :: 0 <= i < j < |vehicles| ==> vehicles[i].id < vehicles[j].id
  }

  lemma VehicleTailIncreasing(vehicles: seq<Vehicle>)
    requires |vehicles| > 0 && VehicleIdsIncreasing(vehicles)
    ensures VehicleIdsIncreasing(vehicles[1..])
    ensures forall w :: w in vehicles[1..] ==> vehicles[0].id < w.id
  {
    forall w | w in vehicles[1..] ensures vehicles[0].id < w.id {
      var k :| 0 <= k < |vehicles[1..]| && vehicles[1..][k] == w;
      assert vehicles[k + 1] == w;
    }
  }

  lemma VehicleConsIncreasing(a: Vehicle, rest: seq<Vehicle>)
    requires VehicleIdsIncreasing(rest) && forall w :: w in rest ==> a.id < w.id
    ensures VehicleIdsIncreasing([a] + rest)
  {
    var r := [a] + rest;
    forall i, j | 0 <= i < j < |r| ensures r[i].id < r[j].id {
      assert r[j] == rest[j - 1];
      if i > 0 {
        assert r[i] == rest[i - 1];
      } else {
        assert rest[j - 1] in rest;
      }
    }
  }

  predicate TripIdsIncreasing(trips: seq<Trip>)
  {
    forall i, j :: 0 <= i < j < |trips| ==> trips[i].id < trips[j].id
  }

  lemma TripTailIncreasing(trips: seq<Trip>)
    requires |trips| > 0 && TripIdsIncreasing(trips)
    ensures TripIdsIncreasing(trips[1..])
    ensures forall w :: w in trips[1..] ==> trips[0].id < w.id
  {
    forall w | w in trips[1..] ensures trips[0].id < w.id {
      var k :| 0 <= k < |trips[1..]| && trips[1..][k] == w;
      assert trips[k + 1] == w;
    }
  }

  lemma TripConsIncreasing(a: Trip, rest: seq<Trip>)
    requires TripIdsIncreasing(rest) && forall w :: w in rest ==> a.id < w.id
    ensures TripIdsIncreasing([a] + rest)
  {
    var r := [a] + rest;
    forall i, j | 0 <= i < j < |r| ensures r[i].id < r[j].id {
      assert r[j] == rest[j - 1];
      if i > 0 {
        assert r[i] == rest[i - 1];
      } else {
        assert rest[j - 1] in rest;
      }
    }
  }

  predicate BookingIdsIncreasing(bookings: seq<Booking>)
  {
    forall i, j :: 0 <= i < j < |bookings| ==> bookings[i].id < bookings[j].id
  }

  function RemoveTripRows(trips: seq<Trip>, tripId: int): (r: seq<Trip>)
    ensures forall t :: t in r <==> t in trips && t.id != tripId
    ensures TripIdsIncreasing(trips) ==> TripIdsIncreasing(r)
  {
    if |trips| == 0 then []
    else
      var rest := RemoveTripRows(trips[1..], tripId);
      assert forall t :: t in trips[1..] ==> t in trips;
      assert trips == [trips[0]] + trips[1..];
      if trips[0].id != tripId then
        assert TripIdsIncreasing(trips) ==> TripIdsIncreasing([trips[0]] + rest) by {
          if TripIdsIncreasing(trips) {
            TripTailIncreasing(trips);
            TripConsIncreasing(trips[0], rest);
          }
        }
        [trips[0]] + rest
      else rest
  }

  /** The column a booking deletion matches on: trip_id for the cascade, id otherwise. */
  function BookingKey(b: Booking, byTrip: bool): int
  {
    if byTrip then b.tripId else b.id
  }

  function RemoveBookingRows(bookings: seq<Booking>, byTrip: bool, key: int): (r: seq<Booking>)
    ensures forall b :: b in r <==> b in bookings && BookingKey(b, byTrip) != key
    ensures BookingIdsIncreasing(bookings) ==> BookingIdsIncreasing(r)
  {
    if |bookings| == 0 then []
    else
      var rest := RemoveBookingRows(bookings[1..], byTrip, key);
      assert forall b :: b in bookings[1..] ==> b in bookings;
      assert bookings == [bookings[0]] + bookings[1..];
      if BookingKey(bookings[0], byTrip) != key then
        assert forall j :: 0 < j < |[bookings[0]] + rest| ==> ([bookings[0]] + rest)[j] == rest[j - 1];
        assert forall j :: 0 <= j < |rest| ==> rest[j] in bookings[1..];
        [bookings[0]] + rest
      else rest
  }

  /** Deleting rows never raises a trip's active count. */
  lemma {:induction false} RemovalDoesNotRaiseCount(bookings: seq<Booking>, byTrip: bool, key: int, tripId: int)
    ensures GetTripBookingsCount(RemoveBookingRows(bookings, byTrip, key), tripId) <= GetTripBookingsCount(bookings, tripId)
  {
    if |bookings| > 0 {
      RemovalDoesNotRaiseCount(bookings[1..], byTrip, key, tripId);
    }
  }

  predicate UserIdsIncreasing(users: seq<User>)
  {
    forall i, j :: 0 <= i < j < |users| ==> users[i].id < users[j].id
  }

  predicate HasUser(users: seq<User>, userId: int)
  {
    exists j :: 0 <= j < |users| && users[j].id == userId
  }

  predicate UsernameExists(users: seq<User>, username: string)
  {
    exists i :: 0 <= i < |users| && users[i].username == username
  }

  predicate VehicleNumberExists(vehicles: seq<Vehicle>, number: string)
  {
    exists i :: 0 <= i < |vehicles| && vehicles[i].number == number
  }

  // ===========================================================================
  // The database: every table and AUTOINCREMENT counter
  // ===========================================================================

  /** A snapshot of every table, so that a write can state its whole new state at once. */
  datatype Tables = Tables(users: seq<User>, vehicles: seq<Vehicle>, trips: seq<Trip>,
                           bookings: seq<Booking>, resetCodes: seq<ResetCode>,
                           questions: seq<SecurityQuestion>,
                           lastUserId: int, lastVehicleId: int, lastTripId: int,
                           lastBookingId: int, lastQuestionId: int)

  // What the schema guarantees, table by table: ids are positive, increase in row order and
  // never pass their counter; usernames and vehicle numbers are UNIQUE; foreign keys name
  // existing rows.

  predicate UsersValid(users: seq<User>, last: int)
  {
    && UserIdsIncreasing(users)
    && 0 <= last
    && (forall i :: 0 <= i < |users| ==> 0 < users[i].id <= last)
    && (forall i, j :: 0 <= i < j < |users| ==> users[i].username != users[j].username)
  }

  predicate VehiclesValid(vehicles: seq<Vehicle>, last: int)
  {
    && VehicleIdsIncreasing(vehicles)
    && 0 <= last
    && (forall i :: 0 <= i < |vehicles| ==> 0 < vehicles[i].id <= last)
    && (forall i, j :: 0 <= i < j < |vehicles| ==> vehicles[i].number != vehicles[j].number)
  }

  predicate TripsValid(trips: seq<Trip>, vehicles: seq<Vehicle>, last: int)
  {
    && TripIdsIncreasing(trips)
    && 0 <= last
    && (forall i :: 0 <= i < |trips| ==> 0 < trips[i].id <= last)
    && (forall i :: 0 <= i < |trips| ==> HasVehicle(vehicles, trips[i].vehicleId))
  }

  predicate BookingsValid(bookings: seq<Booking>, trips: seq<Trip>, last: int)
  {
    && BookingIdsIncreasing(bookings)
    && 0 <= last
    && (forall i :: 0 <= i < |bookings| ==> 0 < bookings[i].id <= last)
    && (forall i :: 0 <= i < |bookings| ==> HasTrip(trips, bookings[i].tripId))
  }

  predicate OwnedByUsers(codes: seq<ResetCode>, questions: seq<SecurityQuestion>, users: seq<User>, lastQuestion: int)
  {
    && (forall i :: 0 <= i < |codes| ==> HasUser(users, codes[i].userId))
    && 0 <= lastQuestion
    && (forall i :: 0 <= i < |questions| ==> 0 < questions[i].id <= lastQuestion)
    && (forall i :: 0 <= i < |questions| ==> HasUser(users, questions[i].userId))
  }

  predicate TablesValid(t: Tables)
  {
    && UsersValid(t.users, t.lastUserId)
    && VehiclesValid(t.vehicles, t.lastVehicleId)
    && TripsValid(t.trips, t.vehicles, t.lastTripId)
    && BookingsValid(t.bookings, t.trips, t.lastBookingId)
    && OwnedByUsers(t.resetCodes, t.questions, t.users, t.lastQuestionId)
  }

  // Row updates (UPDATE ... WHERE id = ?), keeping row order and ids.

  function SetTripRows(trips: seq<Trip>, t: Trip): (r: seq<Trip>)
    ensures |r| == |trips|
    ensures forall i :: 0 <= i < |trips| ==> r[i] == if trips[i].id == t.id then t else trips[i]
  {
    seq(|trips|, i requires 0 <= i < |trips| => if trips[i].id == t.id then t else trips[i])
  }

  function SetVehicleRows(vehicles: seq<Vehicle>, v: Vehicle): (r: seq<Vehicle>)
    ensures |r| == |vehicles|
    ensures forall i :: 0 <= i < |vehicles| ==> r[i] == if vehicles[i].id == v.id then v else vehicles[i]
  {
    seq(|vehicles|, i requires 0 <= i < |vehicles| => if vehicles[i].id == v.id then v else vehicles[i])
  }

  function SetBookingStatus(bookings: seq<Booking>, bookingId: int, status: string): (r: seq<Booking>)
    ensures |r| == |bookings|
    ensures forall i :: 0 <= i < |bookings| ==>
              r[i] == if bookings[i].id == bookingId then bookings[i].(status := status) else bookings[i]
  {
    seq(|bookings|, i requires 0 <= i < |bookings| =>
          if bookings[i].id == bookingId then bookings[i].(status := status) else bookings[i])
  }

  /** The user row with the id, with its username and/or password hash replaced. */
  function SetUserRows(users: seq<User>, userId: int, username: Option<string>, passwordHash: Option<string>): (r: seq<User>)
    ensures |r| == |users|
    ensures forall i :: 0 <= i < |users| ==> r[i].id == users[i].id
    ensures forall i :: 0 <= i < |users| ==>
              r[i] == if users[i].id != userId then users[i]
                      else users[i].(username := if username.Some? then username.value else users[i].username,
                                     passwordHash := if passwordHash.Some? then passwordHash.value else users[i].passwordHash)
  {
    seq(|users|, i requires 0 <= i < |users| =>
          if users[i].id != userId then users[i]
          else users[i].(username := if username.Some? then username.value else users[i].username,
                         passwordHash := if passwordHash.Some? then passwordHash.value else users[i].passwordHash))
  }

  /** The user row with the id, with its role replaced (`UPDATE users SET role = ? WHERE id = ?`). */
  function SetUserRole(users: seq<User>, userId: int, role: string): (r: seq<User>)
    ensures |r| == |users|
    ensures forall i :: 0 <= i < |users| ==> r[i] == if users[i].id == userId then users[i].(role := role) else users[i]
  {
    seq(|users|, i requires 0 <= i < |users| => if users[i].id == userId then users[i].(role := role) else users[i])
  }

  // ---------------------------------------------------------------------------
  // Each write keeps the schema's guarantees.
  // ---------------------------------------------------------------------------

  lemma UsersAppendValid(users: seq<User>, last: int, u: User)
    requires UsersValid(users, last) && u.id == last + 1 && !UsernameExists(users, u.username)
    ensures UsersValid(users + [u], u.id)
    ensures forall id :: HasUser(users, id) ==> HasUser(users + [u], id)
  {
    var r := users + [u];
    forall id | HasUser(users, id) ensures HasUser(r, id) {
      var j :| 0 <= j < |users| && users[j].id == id;
      assert r[j] == users[j];
    }
  }

  lemma UsersSetValid(users: seq<User>, last: int, userId: int, username: Option<string>, passwordHash: Option<string>)
    requires UsersValid(users, last)
    requires username.Some? ==> !UsernameTaken(users, username.value, userId)
    ensures UsersValid(SetUserRows(users, userId, username, passwordHash), last)
    ensures forall id :: HasUser(users, id) ==> HasUser(SetUserRows(users, userId, username, passwordHash), id)
  {
    var r := SetUserRows(users, userId, username, passwordHash);
    forall i, j | 0 <= i < j < |r| ensures r[i].username != r[j].username {
      assert users[i].id < users[j].id;
    }
    forall id | HasUser(users, id) ensures HasUser(r, id) {
      var j :| 0 <= j < |users| && users[j].id == id;
      assert r[j].id == id;
    }
  }

  lemma UsersSetRoleValid(users: seq<User>, last: int, userId: int, role: string)
    requires UsersValid(users, last)
    ensures UsersValid(SetUserRole(users, userId, role), last)
    ensures forall id :: HasUser(users, id) ==> HasUser(SetUserRole(users, userId, role), id)
  {
    var r := SetUserRole(users, userId, role);
    forall id | HasUser(users, id) ensures HasUser(r, id) {
      var j :| 0 <= j < |users| && users[j].id == id;
      assert r[j].id == id;
    }
  }

  lemma OwnersGrow(codes: seq<ResetCode>, questions: seq<SecurityQuestion>, users: seq<User>, users': seq<User>, lastQuestion: int)
    requires OwnedByUsers(codes, questions, users, lastQuestion)
    requires forall id :: HasUser(users, id) ==> HasUser(users', id)
    ensures OwnedByUsers(codes, questions, users', lastQuestion)
  {
    assert forall i :: 0 <= i < |codes| ==> HasUser(users, codes[i].userId);
  }

  lemma VehiclesAppendValid(vehicles: seq<Vehicle>, last: int, v: Vehicle)
    requires VehiclesValid(vehicles, last) && v.id == last + 1 && !VehicleNumberExists(vehicles, v.number)
    ensures VehiclesValid(vehicles + [v], v.id)
    ensures forall id :: HasVehicle(vehicles, id) ==> HasVehicle(vehicles + [v], id)
  {
    var r := vehicles + [v];
    forall id | HasVehicle(vehicles, id) ensures HasVehicle(r, id) {
      var j :| 0 <= j < |vehicles| && vehicles[j].id == id;
      assert r[j] == vehicles[j];
    }
  }

  lemma VehiclesSetValid(vehicles: seq<Vehicle>, last: int, v: Vehicle)
    requires VehiclesValid(vehicles, last) && !VehicleNumberTaken(vehicles, v.number, v.id)
    ensures VehiclesValid(SetVehicleRows(vehicles, v), last)
    ensures forall id :: HasVehicle(vehicles, id) ==> HasVehicle(SetVehicleRows(vehicles, v), id)
  {
    var r := SetVehicleRows(vehicles, v);
    forall i, j | 0 <= i < j < |r| ensures r[i].number != r[j].number {
      assert vehicles[i].id < vehicles[j].id;
    }
    forall id | HasVehicle(vehicles, id) ensures HasVehicle(r, id) {
      var j :| 0 <= j < |vehicles| && vehicles[j].id == id;
      assert r[j].id == id;
    }
  }

  lemma VehiclesRemoveValid(vehicles: seq<Vehicle>, last: int, trips: seq<Trip>, lastTrip: int, vid: int)
    requires VehiclesValid(vehicles, last) && TripsValid(trips, vehicles, lastTrip) && !TripUsesVehicle(trips, vid)
    ensures VehiclesValid(RemoveVehicleRows(vehicles, vid), last)
    ensures TripsValid(trips, RemoveVehicleRows(vehicles, vid), lastTrip)
  {
    var r := RemoveVehicleRows(vehicles, vid);
    forall i | 0 <= i < |r| ensures 0 < r[i].id <= last {
      assert r[i] in vehicles;
    }
    forall i, j | 0 <= i < j < |r| ensures r[i].number != r[j].number {
      assert r[i] in vehicles && r[j] in vehicles;
      var a :| 0 <= a < |vehicles| && vehicles[a] == r[i];
      var b :| 0 <= b < |vehicles| && vehicles[b] == r[j];
      assert a != b;
    }
    forall i | 0 <= i < |trips| ensures HasVehicle(r, trips[i].vehicleId) {
      var j :| 0 <= j < |vehicles| && vehicles[j].id == trips[i].vehicleId;
      assert vehicles[j] in r;
    }
  }

  lemma TripsVehiclesGrow(trips: seq<Trip>, vehicles: seq<Vehicle>, vehicles': seq<Vehicle>, last: int)
    requires TripsValid(trips, vehicles, last)
    requires forall id :: HasVehicle(vehicles, id) ==> HasVehicle(vehicles', id)
    ensures TripsValid(trips, vehicles', last)
  {
    assert forall i :: 0 <= i < |trips| ==> HasVehicle(vehicles, trips[i].vehicleId);
  }

  lemma TripsAppendValid(trips: seq<Trip>, vehicles: seq<Vehicle>, last: int, t: Trip)
    requires TripsValid(trips, vehicles, last) && t.id == last + 1 && HasVehicle(vehicles, t.vehicleId)
    ensures TripsValid(trips + [t], vehicles, t.id)
    ensures forall id :: HasTrip(trips, id) ==> HasTrip(trips + [t], id)
  {
    var r := trips + [t];
    forall id | HasTrip(trips, id) ensures HasTrip(r, id) {
      var j :| 0 <= j < |trips| && trips[j].id == id;
      assert r[j] == trips[j];
    }
  }

  lemma TripsSetValid(trips: seq<Trip>, vehicles: seq<Vehicle>, last: int, t: Trip)
    requires TripsValid(trips, vehicles, last) && (HasTrip(trips, t.id) ==> HasVehicle(vehicles, t.vehicleId))
    ensures TripsValid(SetTripRows(trips, t), vehicles, last)
    ensures forall id :: HasTrip(trips, id) ==> HasTrip(SetTripRows(trips, t), id)
  {
    var r := SetTripRows(trips, t);
    forall i | 0 <= i < |trips| ensures r[i].id == trips[i].id && HasVehicle(vehicles, r[i].vehicleId) {
      if trips[i].id == t.id {
        assert HasTrip(trips, t.id);
      }
    }
    forall id | HasTrip(trips, id) ensures HasTrip(r, id) {
      var j :| 0 <= j < |trips| && trips[j].id == id;
      assert r[j].id == id;
    }
  }

  lemma TripsRemoveValid(trips: seq<Trip>, vehicles: seq<Vehicle>, last: int, bookings: seq<Booking>, lastBooking: int, tripId: int)
    requires TripsValid(trips, vehicles, last) && BookingsValid(bookings, trips, lastBooking)
    ensures TripsValid(RemoveTripRows(trips, tripId), vehicles, last)
    ensures BookingsValid(RemoveBookingRows(bookings, true, tripId), RemoveTripRows(trips, tripId), lastBooking)
  {
    var r := RemoveTripRows(trips, tripId);
    var bs := RemoveBookingRows(bookings, true, tripId);
    forall i | 0 <= i < |r| ensures 0 < r[i].id <= last && HasVehicle(vehicles, r[i].vehicleId) {
      assert r[i] in trips;
    }
    forall i | 0 <= i < |bs| ensures 0 < bs[i].id <= lastBooking && HasTrip(r, bs[i].tripId) {
      assert bs[i] in bookings;
      var k :| 0 <= k < |bookings| && bookings[k] == bs[i];
      var j :| 0 <= j < |trips| && trips[j].id == bs[i].tripId;
      assert trips[j] in r;
    }
  }

  lemma BookingsTripsGrow(bookings: seq<Booking>, trips: seq<Trip>, trips': seq<Trip>, last: int)
    requires BookingsValid(bookings, trips, last)
    requires forall id :: HasTrip(trips, id) ==> HasTrip(trips', id)
    ensures BookingsValid(bookings, trips', last)
  {
    assert forall i :: 0 <= i < |bookings| ==> HasTrip(trips, bookings[i].tripId);
  }

  lemma BookingsAppendValid(bookings: seq<Booking>, trips: seq<Trip>, last: int, b: Booking)
    requires BookingsValid(bookings, trips, last) && b.id == last + 1 && HasTrip(trips, b.tripId)
    ensures BookingsValid(bookings + [b], trips, b.id)
  {
  }

  lemma BookingsSetValid(bookings: seq<Booking>, trips: seq<Trip>, last: int, bookingId: int, status: string)
    requires BookingsValid(bookings, trips, last)
    ensures BookingsValid(SetBookingStatus(bookings, bookingId, status), trips, last)
  {
  }

  lemma BookingsRemoveValid(bookings: seq<Booking>, trips: seq<Trip>, last: int, bookingId: int)
    requires BookingsValid(bookings, trips, last)
    ensures BookingsValid(RemoveBookingRows(bookings, false, bookingId), trips, last)
  {
    var bs := RemoveBookingRows(bookings, false, bookingId);
    forall i | 0 <= i < |bs| ensures 0 < bs[i].id <= last && HasTrip(trips, bs[i].tripId) {
      assert bs[i] in bookings;
    }
  }

  // The errors the write functions raise themselves, before any statement runs (db/db.go:724,
  // 855, 860), and the lookup error of the capacity join (db/db.go:1103).

  const VehicleFieldsRequired: string := "vehicle number, type, and status are required"
  const TimesOutOfOrder: string := "departure time must be before arrival time"
  const SameCityTrip: string := "origin and destination cannot be the same city"
  const TripNotFound: string := "trip not found"

  // The errors of the inserts and the update the schema's constraints refuse: the wrapper's
  // prefix, then the SQLite driver's own message.

  /** A username already taken (`username TEXT UNIQUE`). */
  const UserInsertFailed: string := "failed to insert user: UNIQUE constraint failed: users.username"
  /** A vehicle number already taken (`vehicle_number TEXT UNIQUE`). */
  const VehicleInsertFailed: string := "failed to insert vehicle: UNIQUE constraint failed: vehicles.vehicle_number"
  /** A trip naming no vehicle (`FOREIGN KEY(vehicle_id)` with foreign keys on). */
  const TripInsertFailed: string := "failed to insert trip: FOREIGN KEY constraint failed"
  /** An existing trip rewritten to name no vehicle. */
  const TripUpdateFailed: string := "failed to update trip: FOREIGN KEY constraint failed"
  /** A booking naming no trip (`FOREIGN KEY(trip_id)`). */
  const BookingInsertFailed: string := "failed to insert booking: FOREIGN KEY constraint failed"

  class Database {
    var users: seq<User>
    var vehicles: seq<Vehicle>
    var trips: seq<Trip>
    var bookings: seq<Booking>
    var resetCodes: seq<ResetCode>
    var questions: seq<SecurityQuestion>
    var lastUserId: int
    var lastVehicleId: int
    var lastTripId: int
    var lastBookingId: int
    var lastQuestionId: int

    function State(): Tables
      reads this
    {
      Tables(users, vehicles, trips, bookings, resetCodes, questions,
             lastUserId, lastVehicleId, lastTripId, lastBookingId, lastQuestionId)
    }

    ghost predicate Valid()
      reads this
    {
      TablesValid(State())
    }

    /** A freshly initialised database: every table empty. */
    constructor ()
      ensures Valid()
      ensures State() == Tables([], [], [], [], [], [], 0, 0, 0, 0, 0)
    {
      users, vehicles, trips, bookings, resetCodes, questions := [], [], [], [], [], [];
      lastUserId, lastVehicleId, lastTripId, lastBookingId, lastQuestionId := 0, 0, 0, 0, 0;
    }

    // ---- users ----

    /** AddUser: username, hash and email are required; an empty role becomes "Operator". */
    method AddUser(username: string, passwordHash: string, dateOfBirth: string, ssn: string,
                   email: string, role: string) returns (r: Result<int>)
      requires Valid()
      modifies this
      ensures Valid()
      ensures username == "" || passwordHash == "" || email == "" ==>
                r == Err("username, password, and email are required")
      ensures username != "" && passwordHash != "" && email != "" && UsernameExists(old(users), username) ==>
                r == Err(UserInsertFailed)
      ensures r.Ok? <==> username != "" && passwordHash != "" && email != "" && !UsernameExists(old(users), username)
      ensures r.Err? ==> State() == old(State())
      ensures r.Ok? ==> r.value == old(lastUserId) + 1
      ensures r.Ok? ==>
                State() == old(State()).(users := old(users) + [User(r.value, username, passwordHash, dateOfBirth, ssn, email,
                                                                     if role == "" then DefaultRole else role)],
                                         lastUserId := r.value)
    {
      if username == "" || passwordHash == "" || email == "" {
        return Err("username, password, and email are required");
      }
      var storedRole := if role == "" then DefaultRole else role;
      if UsernameExists(users, username) {
        return Err(UserInsertFailed);
      }
      var u := User(lastUserId + 1, username, passwordHash, dateOfBirth, ssn, email, storedRole);
      UsersAppendValid(users, lastUserId, u);
      OwnersGrow(resetCodes, questions, users, users + [u], lastQuestionId);
      users, lastUserId := users + [u], u.id;
      r := Ok(u.id);
    }

    /** UpdateUserPassword: sets the hash of the user's row; `fault` stands for a storage error. */
    method UpdateUserPassword(userId: int, passwordHash: string, fault: bool) returns (o: Outcome)
      requires Valid()
      modifies this
      ensures Valid()
      ensures o.Fail? <==> fault
      ensures o.Fail? ==> State() == old(State())
      ensures o.Pass? ==> State() == old(State()).(users := SetUserRows(old(users), userId, None, Some(passwordHash)))
    {
      if fault {
        return Fail("error updating password");
      }
      var users' := SetUserRows(users, userId, None, Some(passwordHash));
      UsersSetValid(users, lastUserId, userId, None, Some(passwordHash));
      OwnersGrow(resetCodes, questions, users, users', lastQuestionId);
      users := users';
      o := Pass;
    }

    /** UpdateUsername: refused when another user already has the name. */
    method UpdateUsername(userId: int, newUsername: string) returns (o: Outcome)
      requires Valid()
      modifies this
      ensures Valid()
      ensures o.Fail? <==> UsernameTaken(old(users), newUsername, userId)
      ensures o.Fail? ==> o.message == "username '" + newUsername + "' is already taken"
      ensures o.Fail? ==> State() == old(State())
      ensures o.Pass? ==> State() == old(State()).(users := SetUserRows(old(users), userId, Some(newUsername), None))
    {
      if UsernameTaken(users, newUsername, userId) {
        return Fail("username '" + newUsername + "' is already taken");
      }
      var users' := SetUserRows(users, userId, Some(newUsername), None);
      UsersSetValid(users, lastUserId, userId, Some(newUsername), None);
      OwnersGrow(resetCodes, questions, users, users', lastQuestionId);
      users := users';
      o := Pass;
    }

    /** UpdateUserRole: writes the role of the user's row; `fault` stands for a storage error. */
    method UpdateUserRole(userId: int, role: string, fault: bool) returns (o: Outcome)
      requires Valid()
      modifies this
      ensures Valid()
      ensures o.Fail? <==> fault
      ensures o.Fail? ==> State() == old(State())
      ensures o.Pass? ==> State() == old(State()).(users := SetUserRole(old(users), userId, role))
    {
      if fault {
        return Fail("error updating user role");
      }
      var users' := SetUserRole(users, userId, role);
      UsersSetRoleValid(users, lastUserId, userId, role);
      OwnersGrow(resetCodes, questions, users, users', lastQuestionId);
      users := users';
      o := Pass;
    }

    // ---- reset codes and security questions ----

    /**
     * StoreResetCode: a new unused row; the user_id foreign key must name a user, and `fault`
     * stands for any other storage error.
     */
    method StoreResetCode(userId: int, code: string, expiresAt: int, fault: bool) returns (o: Outcome)
      requires Valid()
      modifies this
      ensures Valid()
      ensures o.Fail? <==> fault || !HasUser(old(users), userId)
      ensures o.Fail? ==> State() == old(State())
      ensures o.Pass? ==> State() == old(State()).(resetCodes := old(resetCodes) + [ResetCode(userId, code, expiresAt, false)])
    {
      if fault || !HasUser(users, userId) {
        return Fail("error storing reset code");
      }
      resetCodes := resetCodes + [ResetCode(userId, code, expiresAt, false)];
      o := Pass;
    }

    /** MarkResetCodeUsed: every row with the code becomes used; `fault` stands for a storage error. */
    method MarkResetCodeUsed(code: string, fault: bool) returns (o: Outcome)
      requires Valid()
      modifies this
      ensures Valid()
      ensures o.Fail? <==> fault
      ensures o.Fail? ==> State() == old(State())
      ensures o.Pass? ==> State() == old(State()).(resetCodes := MarkCodeUsed(old(resetCodes), code))
    {
      if fault {
        return Fail("error marking reset code as used");
      }
      resetCodes := MarkCodeUsed(resetCodes, code);
      o := Pass;
    }

    /** AddSecurityQuestion: a new row for an existing user; `fault` stands for a storage error. */
    method AddSecurityQuestion(userId: int, question: string, answerHash: string, fault: bool) returns (o: Outcome)
      requires Valid()
      modifies this
      ensures Valid()
      ensures o.Fail? <==> fault || !HasUser(old(users), userId)
      ensures o.Fail? ==> State() == old(State())
      ensures o.Pass? ==>
                State() == old(State()).(questions := old(questions) + [SecurityQuestion(old(lastQuestionId) + 1, userId, question, answerHash)],
                                         lastQuestionId := old(lastQuestionId) + 1)
    {
      if fault || !HasUser(users, userId) {
        return Fail("error adding security question");
      }
      lastQuestionId := lastQuestionId + 1;
      questions := questions + [SecurityQuestion(lastQuestionId, userId, question, answerHash)];
      o := Pass;
    }

    // ---- vehicles ----

    /** AddVehicle: number, type and status are required; vehicle_number is UNIQUE. */
    method AddVehicle(number: string, kind: string, capacity: int, status: string,
                      lastMaintenance: string, nextMaintenance: string, notes: string) returns (r: Result<int>)
      requires Valid()
      modifies this
      ensures Valid()
      ensures number == "" || kind == "" || status == "" ==> r == Err(VehicleFieldsRequired)
      ensures number != "" && kind != "" && status != "" && VehicleNumberExists(old(vehicles), number) ==>
                r == Err(VehicleInsertFailed)
      ensures r.Ok? <==> number != "" && kind != "" && status != "" && !VehicleNumberExists(old(vehicles), number)
      ensures r.Err? ==> State() == old(State())
      ensures r.Ok? ==> r.value == old(lastVehicleId) + 1
      ensures r.Ok? ==>
                State() == old(State()).(vehicles := old(vehicles) + [Vehicle(r.value, number, kind, capacity, status,
                                                                              Some(lastMaintenance), Some(nextMaintenance), notes)],
                                         lastVehicleId := r.value)
    {
      if number == "" || kind == "" || status == "" {
        return Err(VehicleFieldsRequired);
      }
      if VehicleNumberExists(vehicles, number) {
        return Err(VehicleInsertFailed);
      }
      var v := Vehicle(lastVehicleId + 1, number, kind, capacity, status, Some(lastMaintenance), Some(nextMaintenance), notes);
      VehiclesAppendValid(vehicles, lastVehicleId, v);
      TripsVehiclesGrow(trips, vehicles, vehicles + [v], lastTripId);
      vehicles, lastVehicleId := vehicles + [v], v.id;
      r := Ok(v.id);
    }

    /** UpdateVehicle: fields required, and the number must not belong to another vehicle. */
    method UpdateVehicle(vid: int, number: string, kind: string, capacity: int, status: string,
                         lastMaintenance: string, nextMaintenance: string, notes: string) returns (o: Outcome)
      requires Valid()
      modifies this
      ensures Valid()
      ensures number == "" || kind == "" || status == "" ==> o == Fail(VehicleFieldsRequired)
      ensures number != "" && kind != "" && status != "" && VehicleNumberTaken(old(vehicles), number, vid) ==>
                o == Fail("vehicle number '" + number + "' is already in use")
      ensures o.Pass? <==> number != "" && kind != "" && status != "" && !VehicleNumberTaken(old(vehicles), number, vid)
      ensures o.Fail? ==> State() == old(State())
      ensures o.Pass? ==>
                State() == old(State()).(vehicles := SetVehicleRows(old(vehicles),
                  Vehicle(vid, number, kind, capacity, status, Some(lastMaintenance), Some(nextMaintenance), notes)))
    {
      if number == "" || kind == "" || status == "" {
        return Fail(VehicleFieldsRequired);
      }
      if VehicleNumberTaken(vehicles, number, vid) {
        return Fail("vehicle number '" + number + "' is already in use");
      }
      var v := Vehicle(vid, number, kind, capacity, status, Some(lastMaintenance), Some(nextMaintenance), notes);
      var vehicles' := SetVehicleRows(vehicles, v);
      VehiclesSetValid(vehicles, lastVehicleId, v);
      TripsVehiclesGrow(trips, vehicles, vehicles', lastTripId);
      vehicles := vehicles';
      o := Pass;
    }

    /**
     * DeleteVehicle: refused while any trip names the vehicle (ON DELETE SET NULL would break
     * trips.vehicle_id NOT NULL); otherwise the row goes.
     */
    method DeleteVehicle(vid: int) returns (o: Outcome)
      requires Valid()
      modifies this
      ensures Valid()
      ensures o.Fail? <==> TripUsesVehicle(old(trips), vid)
      ensures o.Fail? ==> State() == old(State())
      ensures o.Pass? ==> State() == old(State()).(vehicles := RemoveVehicleRows(old(vehicles), vid))
    {
      if TripUsesVehicle(trips, vid) {
        return Fail("error deleting vehicle");
      }
      VehiclesRemoveValid(vehicles, lastVehicleId, trips, lastTripId, vid);
      vehicles := RemoveVehicleRows(vehicles, vid);
      o := Pass;
    }

    // ---- trips ----

    /** AddTrip: departure must precede arrival, the cities must differ, the vehicle must exist. */
    method AddTrip(origin: string, destination: string, vehicleId: int, departure: string, arrival: string)
      returns (r: Result<int>)
      requires Valid()
      modifies this
      ensures Valid()
      ensures !StrLess(departure, arrival) ==> r == Err(TimesOutOfOrder)
      ensures StrLess(departure, arrival) && origin == destination ==>
                r == Err(SameCityTrip)
      ensures StrLess(departure, arrival) && origin != destination && !HasVehicle(old(vehicles), vehicleId) ==>
                r == Err(TripInsertFailed)
      ensures r.Ok? <==> StrLess(departure, arrival) && origin != destination && HasVehicle(old(vehicles), vehicleId)
      ensures r.Err? ==> State() == old(State())
      ensures r.Ok? ==> r.value == old(lastTripId) + 1
      ensures r.Ok? ==>
                State() == old(State()).(trips := old(trips) + [Trip(r.value, origin, destination, vehicleId, departure, arrival)],
                                         lastTripId := r.value)
    {
      if !StrLess(departure, arrival) {
        return Err(TimesOutOfOrder);
      }
      if origin == destination {
        return Err(SameCityTrip);
      }
      if !HasVehicle(vehicles, vehicleId) {
        return Err(TripInsertFailed);
      }
      var t := Trip(lastTripId + 1, origin, destination, vehicleId, departure, arrival);
      TripsAppendValid(trips, vehicles, lastTripId, t);
      BookingsTripsGrow(bookings, trips, trips + [t], lastBookingId);
      trips, lastTripId := trips + [t], t.id;
      r := Ok(t.id);
    }

    /** UpdateTrip: the same checks as AddTrip, then the row with that id is rewritten. */
    method UpdateTrip(id: int, origin: string, destination: string, vehicleId: int, departure: string, arrival: string)
      returns (o: Outcome)
      requires Valid()
      modifies this
      ensures Valid()
      ensures !StrLess(departure, arrival) ==> o == Fail(TimesOutOfOrder)
      ensures StrLess(departure, arrival) && origin == destination ==>
                o == Fail(SameCityTrip)
      ensures StrLess(departure, arrival) && origin != destination && HasTrip(old(trips), id) && !HasVehicle(old(vehicles), vehicleId) ==>
                o == Fail(TripUpdateFailed)
      ensures o.Pass? <==> StrLess(departure, arrival) && origin != destination
                           && (HasTrip(old(trips), id) ==> HasVehicle(old(vehicles), vehicleId))
      ensures o.Fail? ==> State() == old(State())
      ensures o.Pass? ==>
                State() == old(State()).(trips := SetTripRows(old(trips), Trip(id, origin, destination, vehicleId, departure, arrival)))
    {
      if !StrLess(departure, arrival) {
        return Fail(TimesOutOfOrder);
      }
      if origin == destination {
        return Fail(SameCityTrip);
      }
      if HasTrip(trips, id) && !HasVehicle(vehicles, vehicleId) {
        return Fail(TripUpdateFailed);
      }
      var t := Trip(id, origin, destination, vehicleId, departure, arrival);
      TripsSetValid(trips, vehicles, lastTripId, t);
      BookingsTripsGrow(bookings, trips, SetTripRows(trips, t), lastBookingId);
      trips := SetTripRows(trips, t);
      o := Pass;
    }

    /** DeleteTrip: the row goes, and ON DELETE CASCADE removes the trip's bookings. */
    method DeleteTrip(id: int, fault: Option<string>) returns (o: Outcome)
      requires Valid()
      modifies this
      ensures Valid()
      ensures fault.Some? ==> o == Fail("failed to delete trip: " + fault.value) && State() == old(State())
      ensures fault.None? ==>
                o == Pass
                && State() == old(State()).(trips := RemoveTripRows(old(trips), id),
                                            bookings := RemoveBookingRows(old(bookings), true, id))
    {
      if fault.Some? {
        return Fail("failed to delete trip: " + fault.value);
      }
      TripsRemoveValid(trips, vehicles, lastTripId, bookings, lastBookingId, id);
      trips, bookings := RemoveTripRows(trips, id), RemoveBookingRows(bookings, true, id);
      o := Pass;
    }

    // ---- bookings ----

    /** AddBooking: trip id, passenger and status are required; the trip must exist. */
    method AddBooking(tripId: int, passenger: string, socialId: string, phone: string,
                      dateOfBirth: string, status: string) returns (r: Result<int>)
      requires Valid()
      modifies this
      ensures Valid()
      ensures tripId == 0 || passenger == "" || status == "" ==>
                r == Err("trip ID, passenger name, and status are required")
      ensures tripId != 0 && passenger != "" && status != "" && !HasTrip(old(trips), tripId) ==>
                r == Err(BookingInsertFailed)
      ensures r.Ok? <==> tripId != 0 && passenger != "" && status != "" && HasTrip(old(trips), tripId)
      ensures r.Err? ==> State() == old(State())
      ensures r.Ok? ==> r.value == old(lastBookingId) + 1
      ensures r.Ok? ==>
                State() == old(State()).(bookings := old(bookings) + [Booking(r.value, tripId, passenger, socialId, phone, dateOfBirth, status)],
                                         lastBookingId := r.value)
    {
      if tripId == 0 || passenger == "" || status == "" {
        return Err("trip ID, passenger name, and status are required");
      }
      if !HasTrip(trips, tripId) {
        return Err(BookingInsertFailed);
      }
      var b := Booking(lastBookingId + 1, tripId, passenger, socialId, phone, dateOfBirth, status);
      BookingsAppendValid(bookings, trips, lastBookingId, b);
      bookings, lastBookingId := bookings + [b], b.id;
      r := Ok(b.id);
    }

    /** UpdateBookingStatus: any status is written, with no capacity check. */
    method UpdateBookingStatus(bookingId: int, status: string, fault: Option<string>) returns (o: Outcome)
      requires Valid()
      modifies this
      ensures Valid()
      ensures fault.Some? ==> o == Fail("error updating booking status: " + fault.value) && State() == old(State())
      ensures fault.None? ==>
                o == Pass && State() == old(State()).(bookings := SetBookingStatus(old(bookings), bookingId, status))
    {
      if fault.Some? {
        return Fail("error updating booking status: " + fault.value);
      }
      BookingsSetValid(bookings, trips, lastBookingId, bookingId, status);
      bookings := SetBookingStatus(bookings, bookingId, status);
      o := Pass;
    }

    /** DeleteBooking: the row with the id goes. */
    method DeleteBooking(bookingId: int, fault: Option<string>) returns (o: Outcome)
      requires Valid()
      modifies this
      ensures Valid()
      ensures fault.Some? ==> o == Fail("error deleting booking: " + fault.value) && State() == old(State())
      ensures fault.None? ==>
                o == Pass && State() == old(State()).(bookings := RemoveBookingRows(old(bookings), false, bookingId))
    {
      if fault.Some? {
        return Fail("error deleting booking: " + fault.value);
      }
      BookingsRemoveValid(bookings, trips, lastBookingId, bookingId);
      bookings := RemoveBookingRows(bookings, false, bookingId);
      o := Pass;
    }
  }
}
