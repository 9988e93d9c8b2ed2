/**
 * handlers/dashboard/dashboard.go: the dashboard page chosen by role, and the operator JSON
 * handlers. They share the database writes of the admin handlers but check less: no role
 * cookie, no seat check before a booking, no route freeze on a trip edit, and a capacity
 * report whose `available` may be negative.
 */
module Dashboard {
  import opened Wrappers
  import opened GoText
  import opened Db
  import opened Http
  import Admin
  import BookingQuery

  const LoginRequired: string := "You must be logged in"

  // ===========================================================================
  // DashboardHandler
  // ===========================================================================

  /** The page DashboardHandler answers with. */
  datatype Page = Redirect(location: string) | Render(template: string, userRole: string)

  const LoginRedirect: string := "/login?error=You must be logged in to access this page"

  /** The role shown on the dashboard: a missing or empty role cookie reads as Operator. */
  function EffectiveRole(roleCookie: Option<string>): (role: string)
    ensures role != ""
    ensures roleCookie.Some? && roleCookie.value != "" ==> role == roleCookie.value
    ensures !(roleCookie.Some? && roleCookie.value != "") ==> role == DefaultRole
  {
    if roleCookie.None? || roleCookie.value == "" then DefaultRole else roleCookie.value
  }

  /** The template of each known role. */
  function RoleTemplate(role: string): string
    requires role in Admin.AllRoles
  {
    match role
    case "Operator" => "operator_dashboard.html"
    case "Manager" => "manager_dashboard.html"
    case "Accountant" => "accountant_dashboard.html"
    case "Admin" => "admin_dashboard.html"
  }

  /**
   * DashboardHandler: without a username cookie the browser is sent to the login page;
   * otherwise the template of the role, and the operator dashboard for any unknown role.
   */
  function DashboardPage(usernameCookie: Option<string>, roleCookie: Option<string>): (p: Page)
    ensures p.Redirect? <==> !SignedIn(usernameCookie)
    ensures p.Redirect? ==> p.location == LoginRedirect
    ensures p.Render? ==> p.userRole == EffectiveRole(roleCookie)
    ensures p.Render? && p.userRole in Admin.AllRoles ==> p.template == RoleTemplate(p.userRole)
    ensures p.Render? && p.userRole !in Admin.AllRoles ==> p.template == "operator_dashboard.html"
  {
    if !SignedIn(usernameCookie) then Redirect(LoginRedirect)
    else
      var role := EffectiveRole(roleCookie);
      match role
      case "Operator" => Render("operator_dashboard.html", role)
      case "Manager" => Render("manager_dashboard.html", role)
      case "Accountant" => Render("accountant_dashboard.html", role)
      case "Admin" => Render("admin_dashboard.html", role)
      case _ => Render("operator_dashboard.html", role)
  }

  /**
   * Only an Admin role cookie reaches the admin dashboard, and every signed-in request that
   * does not name Manager, Accountant or Admin lands on the operator dashboard.
   */
  lemma DashboardTemplateByRole(usernameCookie: Option<string>, roleCookie: Option<string>)
    requires SignedIn(usernameCookie)
    ensures DashboardPage(usernameCookie, roleCookie).template == "admin_dashboard.html"
            <==> roleCookie == Some("Admin")
    ensures !RoleIn(roleCookie, {"Manager", "Accountant", "Admin"}) ==>
              DashboardPage(usernameCookie, roleCookie).template == "operator_dashboard.html"
  {
  }

  // ===========================================================================
  // Operator trips
  // ===========================================================================

  /**
   * OperatorUpdateTripHandler: only the vehicle availability check (this trip excluded) guards
   * UpdateTrip; unlike AdminUpdateTrip, origin and destination may change even while the trip
   * has active bookings.
   */
  method OperatorUpdateTrip(db: Database, id: int, origin: string, destination: string, vehicleId: int,
                            departure: string, arrival: string) returns (r: Reply<()>)
    requires db.Valid()
    modifies db
    ensures db.Valid()
    ensures !IsVehicleAvailableForTripEdit(old(db.vehicles), old(db.trips), vehicleId, departure, arrival, id) ==>
              r == Reject(BadRequest, "Vehicle is not available for the selected time range")
    ensures IsVehicleAvailableForTripEdit(old(db.vehicles), old(db.trips), vehicleId, departure, arrival, id)
            && !StrLess(departure, arrival) ==>
              r == Reject(InternalServerError, TimesOutOfOrder)
    ensures IsVehicleAvailableForTripEdit(old(db.vehicles), old(db.trips), vehicleId, departure, arrival, id)
            && StrLess(departure, arrival) && origin == destination ==>
              r == Reject(InternalServerError, SameCityTrip)
    ensures r.Accept? <==>
              IsVehicleAvailableForTripEdit(old(db.vehicles), old(db.trips), vehicleId, departure, arrival, id)
              && StrLess(departure, arrival) && origin != destination
    ensures r.Reject? ==> db.State() == old(db.State())
    ensures r.Accept? ==>
              db.State() == old(db.State()).(trips := SetTripRows(old(db.trips), Trip(id, origin, destination, vehicleId, departure, arrival)))
  {
    if !IsVehicleAvailableForTripEdit(db.vehicles, db.trips, vehicleId, departure, arrival, id) {
      return Reject(BadRequest, "Vehicle is not available for the selected time range");
    }
    var o := db.UpdateTrip(id, origin, destination, vehicleId, departure, arrival);
    if o.Fail? {
      return Reject(InternalServerError, o.message);
    }
    r := Accept(());
  }

  /** OperatorCreateTripHandler: all fields required, then AddTrip does the remaining checks. */
  method OperatorCreateTrip(db: Database, origin: string, destination: string, vehicleId: int,
                            departure: string, arrival: string) returns (r: Reply<int>)
    requires db.Valid()
    modifies db
    ensures db.Valid()
    ensures origin == "" || destination == "" || vehicleId == 0 || departure == "" || arrival == "" ==>
              r == Reject(BadRequest, "All fields are required")
    ensures origin != "" && destination != "" && vehicleId != 0 && departure != "" && arrival != ""
            && !StrLess(departure, arrival) ==>
              r == Reject(InternalServerError, TimesOutOfOrder)
    ensures origin != "" && destination != "" && vehicleId != 0 && departure != "" && arrival != ""
            && StrLess(departure, arrival) && origin == destination ==>
              r == Reject(InternalServerError, SameCityTrip)
    ensures origin != "" && destination != "" && vehicleId != 0 && departure != "" && arrival != ""
            && StrLess(departure, arrival) && origin != destination && !HasVehicle(old(db.vehicles), vehicleId) ==>
              r == Reject(InternalServerError, TripInsertFailed)
    ensures r.Accept? <==>
              origin != "" && destination != "" && vehicleId != 0 && departure != "" && arrival != ""
              && origin != destination && StrLess(departure, arrival) && HasVehicle(old(db.vehicles), vehicleId)
    ensures r.Reject? ==> db.State() == old(db.State())
    ensures r.Accept? ==>
              db.State() == old(db.State()).(trips := old(db.trips) + [Trip(r.value, origin, destination, vehicleId, departure, arrival)],
                                             lastTripId := r.value)
  {
    if origin == "" || destination == "" || vehicleId == 0 || departure == "" || arrival == "" {
      return Reject(BadRequest, "All fields are required");
    }
    var added := db.AddTrip(origin, destination, vehicleId, departure, arrival);
    if added.Err? {
      return Reject(InternalServerError, added.message);
    }
    r := Accept(added.value);
  }

  /** OperatorDeleteTripHandler: the same guard as AdminDeleteTrip. */
  method OperatorDeleteTrip(db: Database, idParam: Option<int>, fault: Option<string>) returns (r: Reply<()>)
    requires db.Valid()
    modifies db
    ensures db.Valid()
    ensures idParam.None? ==> r == Reject(BadRequest, "Invalid trip ID")
    ensures idParam.Some? && GetTripBookingsCount(old(db.bookings), idParam.value) > 0 ==>
              r == Reject(BadRequest, "Cannot delete trip with active bookings")
    ensures idParam.Some? && GetTripBookingsCount(old(db.bookings), idParam.value) == 0 && fault.Some? ==>
              r == Reject(InternalServerError, DeleteFailed)
    ensures r.Accept? <==> idParam.Some? && GetTripBookingsCount(old(db.bookings), idParam.value) == 0 && fault.None?
    ensures r.Reject? ==> db.State() == old(db.State())
    ensures r.Accept? ==>
              db.State() == old(db.State()).(trips := RemoveTripRows(old(db.trips), idParam.value),
                                             bookings := RemoveBookingRows(old(db.bookings), true, idParam.value))
    ensures r.Accept? ==> forall i :: 0 <= i < |old(db.bookings)| && old(db.bookings)[i].tripId == idParam.value ==>
              !IsActive(old(db.bookings)[i])
  {
    if idParam.None? {
      return Reject(BadRequest, "Invalid trip ID");
    }
    if GetTripBookingsCount(db.bookings, idParam.value) > 0 {
      return Reject(BadRequest, "Cannot delete trip with active bookings");
    }
    var o := db.DeleteTrip(idParam.value, fault);
    if o.Fail? {
      return Reject(InternalServerError, DeleteFailed);
    }
    r := Accept(());
  }

  // ===========================================================================
  // Operator bookings
  // ===========================================================================

  /**
   * OperatorCreateBookingHandler: a signed-in user and the required fields, then AddBooking.
   * There is no seat check: acceptance does not depend on the capacity.
   */
  method OperatorCreateBooking(db: Database, usernameCookie: Option<string>, tripId: int, passenger: string,
                               socialId: string, phone: string, dateOfBirth: string, status: string)
    returns (r: Reply<int>)
    requires db.Valid()
    modifies db
    ensures db.Valid()
    ensures !SignedIn(usernameCookie) ==> r == Reject(Unauthorized, LoginRequired)
    ensures SignedIn(usernameCookie) && (tripId == 0 || passenger == "" || status == "") ==>
              r == Reject(BadRequest, "Trip, passenger name, and status are required")
    ensures SignedIn(usernameCookie) && tripId != 0 && passenger != "" && status != "" && !HasTrip(old(db.trips), tripId) ==>
              r == Reject(InternalServerError, BookingInsertFailed)
    ensures r.Accept? <==>
              SignedIn(usernameCookie) && tripId != 0 && passenger != "" && status != "" && HasTrip(old(db.trips), tripId)
    ensures r.Reject? ==> db.State() == old(db.State())
    ensures r.Accept? ==>
              db.State() == old(db.State()).(bookings := old(db.bookings) + [Booking(r.value, tripId, passenger, socialId, phone, dateOfBirth, status)],
                                             lastBookingId := r.value)
  {
    if !SignedIn(usernameCookie) {
      return Reject(Unauthorized, LoginRequired);
    }
    if tripId == 0 || passenger == "" || status == "" {
      return Reject(BadRequest, "Trip, passenger name, and status are required");
    }
    var added := db.AddBooking(tripId, passenger, socialId, phone, dateOfBirth, status);
    if added.Err? {
      return Reject(InternalServerError, added.message);
    }
    r := Accept(added.value);
  }

  /**
   * What the missing seat check allows: an active booking accepted for a trip the admin path
   * reports as fully booked leaves more active bookings than seats.
   */
  lemma OperatorBookingCanOverfill(trips: seq<Trip>, vehicles: seq<Vehicle>, bookings: seq<Booking>, b: Booking)
    requires GetTripVehicleCapacity(trips, vehicles, b.tripId).Ok?
    requires GetTripBookingsCount(bookings, b.tripId) == GetTripVehicleCapacity(trips, vehicles, b.tripId).value
    requires IsActive(b)
    ensures CheckTripAvailability(trips, vehicles, bookings, b.tripId) == Ok(false)
    ensures GetTripBookingsCount(bookings + [b], b.tripId) > GetTripVehicleCapacity(trips, vehicles, b.tripId).value
  {
    CountAppend(bookings, b, b.tripId);
  }

  /** OperatorDeleteBookingHandler: a parsed id is enough; DeleteBooking of a missing row still succeeds. */
  method OperatorDeleteBooking(db: Database, idParam: Option<int>, fault: Option<string>) returns (r: Reply<()>)
    requires db.Valid()
    modifies db
    ensures db.Valid()
    ensures idParam.None? ==> r == Reject(BadRequest, "Invalid booking ID")
    ensures idParam.Some? && fault.Some? ==> r == Reject(InternalServerError, DeleteFailed)
    ensures r.Accept? <==> idParam.Some? && fault.None?
    ensures r.Reject? ==> db.State() == old(db.State())
    ensures r.Accept? ==> db.State() == old(db.State()).(bookings := RemoveBookingRows(old(db.bookings), false, idParam.value))
  {
    if idParam.None? {
      return Reject(BadRequest, "Invalid booking ID");
    }
    var o := db.DeleteBooking(idParam.value, fault);
    if o.Fail? {
      return Reject(InternalServerError, DeleteFailed);
    }
    r := Accept(());
  }

  /**
   * OperatorGetBookingsHandler: only a missing username cookie is refused (an empty value
   * passes); the rest is AdminBookings without the role check.
   */
  method OperatorGetBookings<T>(usernameCookie: Option<string>, params: BookingParams,
                                orderBy: string, orderDir: string, pageParam: Option<int>, pageSizeParam: Option<int>,
                                select: (string, seq<string>) -> seq<T>) returns (r: Reply<Admin.BookingList<T>>)
    ensures usernameCookie.None? ==> r == Reject(Unauthorized, LoginRequired)
    ensures r.Accept? <==> usernameCookie.Some?
    ensures r.Accept? ==>
              && r.value.query == BookingQuery.BookingsQuery(Some(QueryFilter(params)), orderBy, orderDir)
              && BookingQuery.BookingsSelect <= r.value.query
              && r.value.args == BookingQuery.FilterArgs(Some(QueryFilter(params)))
              && BookingQuery.CountPlaceholders(r.value.query[|BookingQuery.BookingsSelect|..]) == |r.value.args|
              && r.value.listing == Paginate(select(r.value.query, r.value.args), pageParam, pageSizeParam)
  {
    if usernameCookie.None? {
      return Reject(Unauthorized, LoginRequired);
    }
    var query, args := BookingQuery.GetFilteredBookings(Some(QueryFilter(params)), orderBy, orderDir);
    var rows := select(query, args);
    r := Accept(Admin.BookingList(query, args, Paginate(rows, pageParam, pageSizeParam)));
  }

  // ===========================================================================
  // OperatorTripCapacityHandler
  // ===========================================================================

  /**
   * The operator's capacity report: the capacity error text is passed through, and
   * `available = capacity - booked` is not raised to 0.
   */
  function OperatorTripCapacity(t: Tables, idParam: Option<int>): (r: Reply<Admin.CapacityReport>)
    ensures idParam.None? ==> r == Reject(BadRequest, "Invalid trip ID")
    ensures idParam.Some? && GetTripVehicleCapacity(t.trips, t.vehicles, idParam.value).Err? ==>
              r == Reject(InternalServerError, GetTripVehicleCapacity(t.trips, t.vehicles, idParam.value).message)
    ensures r.Accept? <==> idParam.Some? && GetTripVehicleCapacity(t.trips, t.vehicles, idParam.value).Ok?
    ensures r.Accept? ==>
              && r.value.capacity == GetTripVehicleCapacity(t.trips, t.vehicles, idParam.value).value
              && r.value.booked == GetTripBookingsCount(t.bookings, idParam.value)
              && r.value.booked + r.value.available == r.value.capacity
              && (r.value.isAvailable <==> r.value.available > 0)
  {
    if idParam.None? then Reject(BadRequest, "Invalid trip ID")
    else
      match GetTripVehicleCapacity(t.trips, t.vehicles, idParam.value)
      case Err(m) => Reject(InternalServerError, m)
      case Ok(capacity) =>
        var booked := GetTripBookingsCount(t.bookings, idParam.value);
        Accept(Admin.CapacityReport(capacity, booked, capacity - booked, capacity - booked > 0))
  }

  /**
   * The two capacity reports answer for the same trips and agree on capacity, booked and
   * is_available; the admin figure for available seats is the operator's raised to 0.
   */
  lemma CapacityReportsAgree(t: Tables, idParam: Option<int>)
    ensures OperatorTripCapacity(t, idParam).Accept? <==> Admin.AdminTripCapacity(t, idParam).Accept?
    ensures OperatorTripCapacity(t, idParam).Accept? ==>
              var op := OperatorTripCapacity(t, idParam).value;
              var ad := Admin.AdminTripCapacity(t, idParam).value;
              && op.capacity == ad.capacity && op.booked == ad.booked && op.isAvailable == ad.isAvailable
              && ad.available == (if op.available < 0 then 0 else op.available)
  {
  }

  /** On an over-full trip the operator report shows a negative number of free seats. */
  lemma OverfullTripShowsNegativeSeats(t: Tables, tripId: int)
    requires GetTripVehicleCapacity(t.trips, t.vehicles, tripId).Ok?
    requires GetTripBookingsCount(t.bookings, tripId) > GetTripVehicleCapacity(t.trips, t.vehicles, tripId).value
    ensures OperatorTripCapacity(t, Some(tripId)).value.available < 0
    ensures Admin.AdminTripCapacity(t, Some(tripId)).value.available == 0
  {
  }
}
