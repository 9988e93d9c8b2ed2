/**
 * The JSON handlers of handlers/dashboard/admin.go as decision procedures over the database:
 * each reads counts and rows, then either rejects with a status and an error text, leaving
 * every table as it was, or performs one write through Db.Database.
 */
module Admin {
  import opened Wrappers
  import opened GoText
  import opened Db
  import opened Http
  import Validation
  import BookingQuery

  const LoginRequired: string := "You must be logged in"
  const PermissionDenied: string := "Permission denied"
  const LoginRequiredForAction: string := "You must be logged in to perform this action"
  const NoPermissionForAction: string := "You do not have permission to perform this action"
  const SameCity: string := "Origin and destination cannot be the same city"
  const DeleteVehicleFailed: string := "Failed to delete vehicle"
  const AvailabilityCheckFailed: string := "Failed to check trip availability: "

  const AllRoles: set<string> := {"Operator", "Manager", "Accountant", "Admin"}
  const ManagerRoles: set<string> := {"Operator", "Manager", "Accountant"}
  const StaffRoles: set<string> := {"Admin", "Manager"}

  // ===========================================================================
  // Role normalisation
  // ===========================================================================

  /** The role an admin's new user gets: a known role is kept, anything else becomes Operator. */
  function AdminCreateRole(role: string): (r: string)
    ensures r in AllRoles
    ensures role in AllRoles ==> r == role
    ensures role !in AllRoles ==> r == DefaultRole
  {
    if role != "Operator" && role != "Manager" && role != "Accountant" && role != "Admin" then DefaultRole else role
  }

  /** The role a manager's new user gets: Admin is not among the kept roles, so it is never assigned. */
  function ManagerCreateRole(role: string): (r: string)
    ensures r in ManagerRoles && r != "Admin"
    ensures role in ManagerRoles ==> r == role
    ensures role !in ManagerRoles ==> r == DefaultRole
  {
    match role
    case "Operator" => role
    case "Manager" => role
    case "Accountant" => role
    case _ => DefaultRole
  }

  /** The role an admin may write on update: the four roles, anything else is "Invalid role". */
  function AdminUpdateRole(role: string): (r: Result<string>)
    ensures r.Ok? <==> role in AllRoles
    ensures r.Ok? ==> r.value == role
    ensures r.Err? ==> r.message == "Invalid role"
  {
    match role
    case "Operator" => Ok(role)
    case "Manager" => Ok(role)
    case "Accountant" => Ok(role)
    case "Admin" => Ok(role)
    case _ => Err("Invalid role")
  }

  /** The role a manager may write on update: never Admin. */
  function ManagerUpdateRole(role: string): (r: Result<string>)
    ensures r.Ok? <==> role in ManagerRoles
    ensures r.Ok? ==> r.value == role
    ensures r.Err? ==> r.message == "Invalid role"
  {
    match role
    case "Operator" => Ok(role)
    case "Manager" => Ok(role)
    case "Accountant" => Ok(role)
    case _ => Err("Invalid role")
  }

  /**
   * Updates reject exactly the roles that creation silently replaces by Operator, and accept
   * the rest unchanged; normalising twice changes nothing more.
   */
  lemma UpdateRejectsWhatCreateReplaces(role: string)
    ensures AdminUpdateRole(role).Err? <==> AdminCreateRole(role) != role
    ensures ManagerUpdateRole(role).Err? <==> ManagerCreateRole(role) != role
    ensures AdminCreateRole(AdminCreateRole(role)) == AdminCreateRole(role)
    ensures ManagerCreateRole(ManagerCreateRole(role)) == ManagerCreateRole(role)
  {
  }

  /** No path through the manager handlers stores Admin. */
  lemma ManagerNeverGrantsAdmin(role: string)
    ensures ManagerCreateRole(role) != "Admin"
    ensures ManagerUpdateRole(role) != Ok("Admin")
  {
  }

  // ===========================================================================
  // Users
  // ===========================================================================

  const CreateUserFailed: string := "Failed to create user"

  /** The form checks the create-user handlers make before AddUser: fields present, name and password rules. */
  predicate CreateFormPasses(username: string, email: string, password: string)
  {
    username != "" && email != "" && password != "" && Validation.IsValidUsername(username).Pass?
    && Validation.MissingRequirements(password) == []
  }

  /**
   * The part of the two create-user handlers after their cookie checks: required fields, the
   * username and password rules, then AddUser with the bcrypt hash `hash(password)` and the
   * already normalised role. Any AddUser error is reported as "Failed to create user".
   */
  method CreateUser(db: Database, username: string, email: string, password: string, role: string,
                    hash: string -> string) returns (r: Reply<int>)
    requires db.Valid() && role in AllRoles
    modifies db
    ensures db.Valid()
    ensures username == "" || email == "" || password == "" ==>
              r == Reject(BadRequest, "Username, email, and password are required")
    ensures username != "" && email != "" && password != "" && Validation.IsValidUsername(username).Fail? ==>
              r == Reject(BadRequest, Validation.IsValidUsername(username).message)
    ensures username != "" && email != "" && password != "" && Validation.IsValidUsername(username).Pass?
            && Validation.MissingRequirements(password) != [] ==>
              r == Reject(BadRequest, Validation.PasswordMessage(Validation.MissingRequirements(password)))
    ensures CreateFormPasses(username, email, password) && (hash(password) == "" || UsernameExists(old(db.users), username)) ==>
              r == Reject(InternalServerError, CreateUserFailed)
    ensures r.Accept? <==>
              CreateFormPasses(username, email, password) && hash(password) != "" && !UsernameExists(old(db.users), username)
    ensures r.Reject? ==> db.State() == old(db.State())
    ensures r.Accept? ==>
              db.State() == old(db.State()).(users := old(db.users) + [User(r.value, username, hash(password), "", "", email, role)],
                                             lastUserId := r.value)
  {
    if username == "" || email == "" || password == "" {
      return Reject(BadRequest, "Username, email, and password are required");
    }
    var nameCheck := Validation.IsValidUsername(username);
    if nameCheck.Fail? {
      return Reject(BadRequest, nameCheck.message);
    }
    var ok, msg := Validation.IsValidPassword(password);
    if !ok {
      return Reject(BadRequest, msg);
    }
    r := AddCheckedUser(db, username, email, password, role, hash);
  }

  /** The insert step of CreateUser, once the form has passed: any AddUser error is a 500. */
  method AddCheckedUser(db: Database, username: string, email: string, password: string, role: string,
                        hash: string -> string) returns (r: Reply<int>)
    requires db.Valid() && role in AllRoles && username != "" && email != ""
    modifies db
    ensures db.Valid()
    ensures hash(password) == "" || UsernameExists(old(db.users), username) ==> r == Reject(InternalServerError, CreateUserFailed)
    ensures r.Accept? <==> hash(password) != "" && !UsernameExists(old(db.users), username)
    ensures r.Reject? ==> db.State() == old(db.State())
    ensures r.Accept? ==>
              db.State() == old(db.State()).(users := old(db.users) + [User(r.value, username, hash(password), "", "", email, role)],
                                             lastUserId := r.value)
  {
    var added := db.AddUser(username, hash(password), "", "", email, role);
    if added.Err? {
      return Reject(InternalServerError, CreateUserFailed);
    }
    r := Accept(added.value);
  }

  /** AdminCreateUserHandler: only an Admin cookie may create users, with any of the four roles. */
  method AdminCreateUser(db: Database, usernameCookie: Option<string>, roleCookie: Option<string>,
                         username: string, email: string, password: string, role: string,
                         hash: string -> string) returns (r: Reply<int>)
    requires db.Valid()
    modifies db
    ensures db.Valid()
    ensures !SignedIn(usernameCookie) ==> r == Reject(Unauthorized, LoginRequiredForAction)
    ensures SignedIn(usernameCookie) && !RoleIn(roleCookie, {"Admin"}) ==> r == Reject(Forbidden, NoPermissionForAction)
    ensures r.Accept? <==>
              SignedIn(usernameCookie) && RoleIn(roleCookie, {"Admin"})
              && CreateFormPasses(username, email, password) && hash(password) != "" && !UsernameExists(old(db.users), username)
    ensures r.Reject? ==> db.State() == old(db.State())
    ensures r.Accept? ==>
              db.State() == old(db.State()).(users := old(db.users) + [User(r.value, username, hash(password), "", "", email, AdminCreateRole(role))],
                                             lastUserId := r.value)
  {
    if !SignedIn(usernameCookie) {
      return Reject(Unauthorized, LoginRequiredForAction);
    }
    if roleCookie.None? || roleCookie.value != "Admin" {
      return Reject(Forbidden, NoPermissionForAction);
    }
    r := CreateUser(db, username, email, password, AdminCreateRole(role), hash);
  }

  /** ManagerCreateUserHandler: a Manager or Admin cookie; Admin is never the stored role. */
  method ManagerCreateUser(db: Database, usernameCookie: Option<string>, roleCookie: Option<string>,
                           username: string, email: string, password: string, role: string,
                           hash: string -> string) returns (r: Reply<int>)
    requires db.Valid()
    modifies db
    ensures db.Valid()
    ensures !SignedIn(usernameCookie) ==> r == Reject(Unauthorized, LoginRequiredForAction)
    ensures SignedIn(usernameCookie) && !RoleIn(roleCookie, StaffRoles) ==> r == Reject(Forbidden, NoPermissionForAction)
    ensures r.Accept? <==>
              SignedIn(usernameCookie) && RoleIn(roleCookie, StaffRoles)
              && CreateFormPasses(username, email, password) && hash(password) != "" && !UsernameExists(old(db.users), username)
    ensures r.Reject? ==> db.State() == old(db.State())
    ensures r.Accept? ==>
              db.State() == old(db.State()).(users := old(db.users) + [User(r.value, username, hash(password), "", "", email, ManagerCreateRole(role))],
                                             lastUserId := r.value)
    ensures forall i :: 0 <= i < |db.users| ==> db.users[i].role == "Admin" ==> db.users[i] in old(db.users)
  {
    if !SignedIn(usernameCookie) {
      return Reject(Unauthorized, LoginRequiredForAction);
    }
    if roleCookie.None? || (roleCookie.value != "Manager" && roleCookie.value != "Admin") {
      return Reject(Forbidden, NoPermissionForAction);
    }
    r := CreateUser(db, username, email, password, ManagerCreateRole(role), hash);
    if r.Accept? {
      ManagerNeverGrantsAdmin(role);
      AppendAddsNoAdmin(old(db.users), User(r.value, username, hash(password), "", "", email, ManagerCreateRole(role)));
    }
  }

  /** Appending a user who is not an Admin adds no Admin. */
  lemma AppendAddsNoAdmin(users: seq<User>, u: User)
    requires u.role != "Admin"
    ensures forall i :: 0 <= i < |users + [u]| ==> (users + [u])[i].role == "Admin" ==> (users + [u])[i] in users
  {
  }

  /** AdminUpdateUserHandler: an unknown role is refused; `fault` stands for a storage error. */
  method AdminUpdateUser(db: Database, userId: int, role: string, fault: bool) returns (r: Reply<()>)
    requires db.Valid()
    modifies db
    ensures db.Valid()
    ensures role !in AllRoles ==> r == Reject(BadRequest, "Invalid role")
    ensures role in AllRoles && fault ==> r == Reject(InternalServerError, "Failed to update user role")
    ensures r.Accept? <==> role in AllRoles && !fault
    ensures r.Reject? ==> db.State() == old(db.State())
    ensures r.Accept? ==> db.State() == old(db.State()).(users := SetUserRole(old(db.users), userId, role))
  {
    var checked := AdminUpdateRole(role);
    if checked.Err? {
      return Reject(BadRequest, checked.message);
    }
    var o := db.UpdateUserRole(userId, checked.value, fault);
    if o.Fail? {
      return Reject(InternalServerError, "Failed to update user role");
    }
    r := Accept(());
  }

  /** ManagerUpdateUserHandler: as AdminUpdateUser, but Admin is among the refused roles. */
  method ManagerUpdateUser(db: Database, userId: int, role: string, fault: bool) returns (r: Reply<()>)
    requires db.Valid()
    modifies db
    ensures db.Valid()
    ensures role !in ManagerRoles ==> r == Reject(BadRequest, "Invalid role")
    ensures role in ManagerRoles && fault ==> r == Reject(InternalServerError, "Failed to update user role")
    ensures r.Accept? <==> role in ManagerRoles && !fault
    ensures r.Reject? ==> db.State() == old(db.State())
    ensures r.Accept? ==> db.State() == old(db.State()).(users := SetUserRole(old(db.users), userId, role))
  {
    var checked := ManagerUpdateRole(role);
    if checked.Err? {
      return Reject(BadRequest, checked.message);
    }
    var o := db.UpdateUserRole(userId, checked.value, fault);
    if o.Fail? {
      return Reject(InternalServerError, "Failed to update user role");
    }
    r := Accept(());
  }

  // ===========================================================================
  // Vehicles
  // ===========================================================================

  /** AdminCreateVehicleHandler: Admin or Manager; number and type required; empty status is "Active". */
  method AdminCreateVehicle(db: Database, usernameCookie: Option<string>, roleCookie: Option<string>,
                            number: string, kind: string, capacity: int, status: string,
                            lastMaintenance: string, nextMaintenance: string, notes: string)
    returns (r: Reply<int>)
    requires db.Valid()
    modifies db
    ensures db.Valid()
    ensures !SignedIn(usernameCookie) ==> r == Reject(Unauthorized, LoginRequiredForAction)
    ensures SignedIn(usernameCookie) && !RoleIn(roleCookie, StaffRoles) ==> r == Reject(Forbidden, NoPermissionForAction)
    ensures SignedIn(usernameCookie) && RoleIn(roleCookie, StaffRoles) && (number == "" || kind == "") ==>
              r == Reject(BadRequest, "Vehicle number and type are required")
    ensures r.Accept? <==>
              SignedIn(usernameCookie) && RoleIn(roleCookie, StaffRoles) && number != "" && kind != ""
              && !VehicleNumberExists(old(db.vehicles), number)
    ensures SignedIn(usernameCookie) && RoleIn(roleCookie, StaffRoles) && number != "" && kind != ""
            && VehicleNumberExists(old(db.vehicles), number) ==>
              r == Reject(InternalServerError, "Failed to create vehicle: " + VehicleInsertFailed)
    ensures r.Reject? ==> db.State() == old(db.State())
    ensures r.Accept? ==>
              db.State() == old(db.State()).(vehicles := old(db.vehicles) + [Vehicle(r.value, number, kind, capacity,
                                               if status == "" then "Active" else status,
                                               Some(lastMaintenance), Some(nextMaintenance), notes)],
                                             lastVehicleId := r.value)
  {
    if !SignedIn(usernameCookie) {
      return Reject(Unauthorized, LoginRequiredForAction);
    }
    if roleCookie.None? || (roleCookie.value != "Admin" && roleCookie.value != "Manager") {
      return Reject(Forbidden, NoPermissionForAction);
    }
    r := InsertVehicle(db, number, kind, capacity, status, lastMaintenance, nextMaintenance, notes);
  }

  /** The part of AdminCreateVehicleHandler after the role check. */
  method InsertVehicle(db: Database, number: string, kind: string, capacity: int, status: string,
                       lastMaintenance: string, nextMaintenance: string, notes: string)
    returns (r: Reply<int>)
    requires db.Valid()
    modifies db
    ensures db.Valid()
    ensures number == "" || kind == "" ==> r == Reject(BadRequest, "Vehicle number and type are required")
    ensures r.Accept? <==> number != "" && kind != "" && !VehicleNumberExists(old(db.vehicles), number)
    ensures number != "" && kind != "" && VehicleNumberExists(old(db.vehicles), number) ==>
              r == Reject(InternalServerError, "Failed to create vehicle: " + VehicleInsertFailed)
    ensures r.Reject? ==> db.State() == old(db.State())
    ensures r.Accept? ==>
              db.State() == old(db.State()).(vehicles := old(db.vehicles) + [Vehicle(r.value, number, kind, capacity,
                                               if status == "" then "Active" else status,
                                               Some(lastMaintenance), Some(nextMaintenance), notes)],
                                             lastVehicleId := r.value)
  {
    if number == "" || kind == "" {
      return Reject(BadRequest, "Vehicle number and type are required");
    }
    var st := if status == "" then "Active" else status;
    var added := db.AddVehicle(number, kind, capacity, st, lastMaintenance, nextMaintenance, notes);
    if added.Err? {
      return Reject(InternalServerError, "Failed to create vehicle: " + added.message);
    }
    r := Accept(added.value);
  }

  /**
   * AdminUpdateVehicleHandler: refused while any trip of the vehicle has an active booking.
   * The status is not defaulted here, so an empty status fails in UpdateVehicle.
   */
  method AdminUpdateVehicle(db: Database, vid: int, number: string, kind: string, capacity: int, status: string,
                            lastMaintenance: string, nextMaintenance: string, notes: string)
    returns (r: Reply<()>)
    requires db.Valid()
    modifies db
    ensures db.Valid()
    ensures number == "" || kind == "" ==> r == Reject(BadRequest, "Vehicle number and type are required")
    ensures number != "" && kind != "" && GetVehicleBookingsCount(old(db.trips), old(db.bookings), vid) > 0 ==>
              r == Reject(BadRequest, "Cannot modify vehicle assigned to trips with active bookings")
    ensures number != "" && kind != "" && GetVehicleBookingsCount(old(db.trips), old(db.bookings), vid) == 0 && status == "" ==>
              r == Reject(InternalServerError, VehicleFieldsRequired)
    ensures number != "" && kind != "" && GetVehicleBookingsCount(old(db.trips), old(db.bookings), vid) == 0 && status != ""
            && VehicleNumberTaken(old(db.vehicles), number, vid) ==>
              r == Reject(InternalServerError, "vehicle number '" + number + "' is already in use")
    ensures r.Accept? <==>
              number != "" && kind != "" && status != "" && GetVehicleBookingsCount(old(db.trips), old(db.bookings), vid) == 0
              && !VehicleNumberTaken(old(db.vehicles), number, vid)
    ensures r.Reject? ==> db.State() == old(db.State())
    ensures r.Accept? ==>
              db.State() == old(db.State()).(vehicles := SetVehicleRows(old(db.vehicles),
                Vehicle(vid, number, kind, capacity, status, Some(lastMaintenance), Some(nextMaintenance), notes)))
  {
    if number == "" || kind == "" {
      return Reject(BadRequest, "Vehicle number and type are required");
    }
    if GetVehicleBookingsCount(db.trips, db.bookings, vid) > 0 {
      return Reject(BadRequest, "Cannot modify vehicle assigned to trips with active bookings");
    }
    var o := db.UpdateVehicle(vid, number, kind, capacity, status, lastMaintenance, nextMaintenance, notes);
    if o.Fail? {
      return Reject(InternalServerError, o.message);
    }
    r := Accept(());
  }

  /**
   * AdminDeleteVehicleHandler: refused while any trip of the vehicle has an active booking;
   * a vehicle still named by a trip without active bookings passes the guard and then fails in
   * DeleteVehicle.
   */
  method AdminDeleteVehicle(db: Database, idParam: Option<int>) returns (r: Reply<()>)
    requires db.Valid()
    modifies db
    ensures db.Valid()
    ensures idParam.None? ==> r == Reject(BadRequest, "Invalid vehicle ID")
    ensures idParam.Some? && GetVehicleBookingsCount(old(db.trips), old(db.bookings), idParam.value) > 0 ==>
              r == Reject(BadRequest, "Cannot delete vehicle assigned to trips with active bookings")
    ensures idParam.Some? && GetVehicleBookingsCount(old(db.trips), old(db.bookings), idParam.value) == 0
            && TripUsesVehicle(old(db.trips), idParam.value) ==>
              r == Reject(InternalServerError, DeleteVehicleFailed)
    ensures r.Accept? <==> idParam.Some? && !TripUsesVehicle(old(db.trips), idParam.value)
    ensures r.Reject? ==> db.State() == old(db.State())
    ensures r.Accept? ==> db.State() == old(db.State()).(vehicles := RemoveVehicleRows(old(db.vehicles), idParam.value))
  {
    if idParam.None? {
      return Reject(BadRequest, "Invalid vehicle ID");
    }
    var vid := idParam.value;
    if GetVehicleBookingsCount(db.trips, db.bookings, vid) > 0 {
      return Reject(BadRequest, "Cannot delete vehicle assigned to trips with active bookings");
    }
    var o := db.DeleteVehicle(vid);
    if o.Fail? {
      return Reject(InternalServerError, DeleteVehicleFailed);
    }
    UnusedVehicleHasNoBookings(db.trips, db.bookings, vid);
    r := Accept(());
  }

  /** A vehicle that no trip names has no active bookings. */
  lemma UnusedVehicleHasNoBookings(trips: seq<Trip>, bookings: seq<Booking>, vid: int)
    requires !TripUsesVehicle(trips, vid)
    ensures GetVehicleBookingsCount(trips, bookings, vid) == 0
  {
  }

  // ===========================================================================
  // Trips
  // ===========================================================================

  /** A staff member signed in and every trip field given: the checks before the city check. */
  predicate TripFormPasses(usernameCookie: Option<string>, roleCookie: Option<string>, origin: string, destination: string,
                           vehicleId: int, departure: string, arrival: string)
  {
    SignedIn(usernameCookie) && RoleIn(roleCookie, StaffRoles)
    && origin != "" && destination != "" && vehicleId != 0 && departure != "" && arrival != ""
  }

  /**
   * AdminCreateTripHandler: Admin or Manager, all fields present, different cities, then
   * AddTrip. No vehicle availability is checked: acceptance does not depend on other trips.
   */
  method AdminCreateTrip(db: Database, usernameCookie: Option<string>, roleCookie: Option<string>,
                         origin: string, destination: string, vehicleId: int, departure: string, arrival: string)
    returns (r: Reply<int>)
    requires db.Valid()
    modifies db
    ensures db.Valid()
    ensures !SignedIn(usernameCookie) ==> r == Reject(Unauthorized, LoginRequired)
    ensures SignedIn(usernameCookie) && !RoleIn(roleCookie, StaffRoles) ==> r == Reject(Forbidden, PermissionDenied)
    ensures SignedIn(usernameCookie) && RoleIn(roleCookie, StaffRoles)
            && (origin == "" || destination == "" || vehicleId == 0 || departure == "" || arrival == "") ==>
              r == Reject(BadRequest, "All fields are required")
    ensures TripFormPasses(usernameCookie, roleCookie, origin, destination, vehicleId, departure, arrival) && origin == destination ==>
              r == Reject(BadRequest, SameCity)
    ensures TripFormPasses(usernameCookie, roleCookie, origin, destination, vehicleId, departure, arrival) && origin != destination
            && !StrLess(departure, arrival) ==>
              r == Reject(InternalServerError, TimesOutOfOrder)
    ensures TripFormPasses(usernameCookie, roleCookie, origin, destination, vehicleId, departure, arrival) && origin != destination
            && StrLess(departure, arrival) && !HasVehicle(old(db.vehicles), vehicleId) ==>
              r == Reject(InternalServerError, TripInsertFailed)
    ensures r.Accept? <==>
              TripFormPasses(usernameCookie, roleCookie, origin, destination, vehicleId, departure, arrival)
              && origin != destination && StrLess(departure, arrival) && HasVehicle(old(db.vehicles), vehicleId)
    ensures r.Reject? ==> db.State() == old(db.State())
    ensures r.Accept? ==>
              db.State() == old(db.State()).(trips := old(db.trips) + [Trip(r.value, origin, destination, vehicleId, departure, arrival)],
                                             lastTripId := r.value)
  {
    if !SignedIn(usernameCookie) {
      return Reject(Unauthorized, LoginRequired);
    }
    if roleCookie.None? || (roleCookie.value != "Admin" && roleCookie.value != "Manager") {
      return Reject(Forbidden, PermissionDenied);
    }
    if origin == "" || destination == "" || vehicleId == 0 || departure == "" || arrival == "" {
      return Reject(BadRequest, "All fields are required");
    }
    if origin == destination {
      return Reject(BadRequest, SameCity);
    }
    var added := db.AddTrip(origin, destination, vehicleId, departure, arrival);
    if added.Err? {
      return Reject(InternalServerError, added.message);
    }
    r := Accept(added.value);
  }

  /** The freeze of AdminUpdateTripHandler: with active bookings, the stored cities must be kept. */
  predicate RouteKept(trips: seq<Trip>, bookings: seq<Booking>, id: int, origin: string, destination: string)
  {
    GetTripBookingsCount(bookings, id) == 0
    || (FindTrip(trips, id).Some? && FindTrip(trips, id).value.origin == origin
        && FindTrip(trips, id).value.destination == destination)
  }

  /** In a valid database a trip with active bookings exists, so its stored row is always found. */
  lemma BookedTripExists(trips: seq<Trip>, bookings: seq<Booking>, last: int, id: int)
    requires BookingsValid(bookings, trips, last)
    requires GetTripBookingsCount(bookings, id) > 0
    ensures FindTrip(trips, id).Some?
  {
    var i :| 0 <= i < |bookings| && ActiveOn(bookings[i], id);
    assert HasTrip(trips, bookings[i].tripId);
  }

  /**
   * AdminUpdateTripHandler, check by check: a non-zero id; different cities; with active
   * bookings, the stored origin and destination (vehicle and times may still change); the
   * vehicle available for the new window with this trip excluded; then UpdateTrip.
   */
  method AdminUpdateTrip(db: Database, id: int, origin: string, destination: string, vehicleId: int,
                         departure: string, arrival: string) returns (r: Reply<()>)
    requires db.Valid()
    modifies db
    ensures db.Valid()
    ensures id == 0 ==> r == Reject(BadRequest, "Trip ID required")
    ensures id != 0 && origin == destination ==> r == Reject(BadRequest, SameCity)
    ensures id != 0 && origin != destination && !RouteKept(old(db.trips), old(db.bookings), id, origin, destination) ==>
              r == Reject(BadRequest, "Cannot change origin or destination for trips with active bookings")
    ensures id != 0 && origin != destination && RouteKept(old(db.trips), old(db.bookings), id, origin, destination)
            && !IsVehicleAvailableForTripEdit(old(db.vehicles), old(db.trips), vehicleId, departure, arrival, id) ==>
              r == Reject(BadRequest, "Selected vehicle is not available for the new schedule")
    ensures id != 0 && origin != destination && RouteKept(old(db.trips), old(db.bookings), id, origin, destination)
            && IsVehicleAvailableForTripEdit(old(db.vehicles), old(db.trips), vehicleId, departure, arrival, id)
            && !StrLess(departure, arrival) ==>
              r == Reject(InternalServerError, TimesOutOfOrder)
    ensures r.Accept? <==>
              id != 0 && origin != destination && RouteKept(old(db.trips), old(db.bookings), id, origin, destination)
              && IsVehicleAvailableForTripEdit(old(db.vehicles), old(db.trips), vehicleId, departure, arrival, id)
              && StrLess(departure, arrival)
    ensures r.Reject? ==> db.State() == old(db.State())
    ensures r.Accept? ==>
              db.State() == old(db.State()).(trips := SetTripRows(old(db.trips), Trip(id, origin, destination, vehicleId, departure, arrival)))
  {
    if id == 0 {
      return Reject(BadRequest, "Trip ID required");
    }
    if origin == destination {
      return Reject(BadRequest, SameCity);
    }
    var bookingCount := GetTripBookingsCount(db.bookings, id);
    if bookingCount > 0 {
      BookedTripExists(db.trips, db.bookings, db.lastBookingId, id);
      var current := FindTrip(db.trips, id);
      if current.None? {
        assert false;
        return Reject(InternalServerError, "Failed to retrieve current trip data");
      }
      if current.value.origin != origin || current.value.destination != destination {
        return Reject(BadRequest, "Cannot change origin or destination for trips with active bookings");
      }
    }
    r := RescheduleTrip(db, id, origin, destination, vehicleId, departure, arrival);
  }

  /** The last two steps of AdminUpdateTripHandler: the availability check, then UpdateTrip. */
  method RescheduleTrip(db: Database, id: int, origin: string, destination: string, vehicleId: int,
                        departure: string, arrival: string) returns (r: Reply<()>)
    requires db.Valid() && origin != destination
    modifies db
    ensures db.Valid()
    ensures !IsVehicleAvailableForTripEdit(old(db.vehicles), old(db.trips), vehicleId, departure, arrival, id) ==>
              r == Reject(BadRequest, "Selected vehicle is not available for the new schedule")
    ensures IsVehicleAvailableForTripEdit(old(db.vehicles), old(db.trips), vehicleId, departure, arrival, id)
            && !StrLess(departure, arrival) ==>
              r == Reject(InternalServerError, TimesOutOfOrder)
    ensures r.Accept? <==>
              IsVehicleAvailableForTripEdit(old(db.vehicles), old(db.trips), vehicleId, departure, arrival, id)
              && StrLess(departure, arrival)
    ensures r.Reject? ==> db.State() == old(db.State())
    ensures r.Accept? ==>
              db.State() == old(db.State()).(trips := SetTripRows(old(db.trips), Trip(id, origin, destination, vehicleId, departure, arrival)))
  {
    if !IsVehicleAvailableForTripEdit(db.vehicles, db.trips, vehicleId, departure, arrival, id) {
      return Reject(BadRequest, "Selected vehicle is not available for the new schedule");
    }
    var o := db.UpdateTrip(id, origin, destination, vehicleId, departure, arrival);
    if o.Fail? {
      return Reject(InternalServerError, o.message);
    }
    r := Accept(());
  }

  /** AdminDeleteTripHandler: refused while the trip has an active booking. */
  method AdminDeleteTrip(db: Database, idParam: Option<int>, fault: Option<string>) returns (r: Reply<()>)
    requires db.Valid()
    modifies db
    ensures db.Valid()
    ensures idParam.None? ==> r == Reject(BadRequest, "Invalid trip ID")
    ensures idParam.Some? && GetTripBookingsCount(old(db.bookings), idParam.value) > 0 ==>
              r == Reject(BadRequest, "Cannot delete trip with active bookings")
    ensures idParam.Some? && GetTripBookingsCount(old(db.bookings), idParam.value) == 0 && fault.Some? ==>
              r == Reject(InternalServerError, DeleteFailed)
    ensures r.Accept? <==> idParam.Some? && GetTripBookingsCount(old(db.bookings), idParam.value) == 0 && fault.None?
    ensures r.Reject? ==> db.State() == old(db.State())
    ensures r.Accept? ==>
              db.State() == old(db.State()).(trips := RemoveTripRows(old(db.trips), idParam.value),
                                             bookings := RemoveBookingRows(old(db.bookings), true, idParam.value))
  {
    if idParam.None? {
      return Reject(BadRequest, "Invalid trip ID");
    }
    if GetTripBookingsCount(db.bookings, idParam.value) > 0 {
      return Reject(BadRequest, "Cannot delete trip with active bookings");
    }
    var o := db.DeleteTrip(idParam.value, fault);
    if o.Fail? {
      return Reject(InternalServerError, DeleteFailed);
    }
    r := Accept(());
  }

  // ===========================================================================
  // Bookings
  // ===========================================================================

  /** The list the booking handlers return, with the query and arguments sent to the database. */
  datatype BookingList<T> = BookingList(query: string, args: seq<string>, listing: Listing<T>)

  /**
   * AdminBookingsHandler: Admin or Manager; the filter map holds the non-empty parameters;
   * `select` stands for the database running the query; the rows are then paginated.
   */
  method AdminBookings<T>(usernameCookie: Option<string>, roleCookie: Option<string>, params: BookingParams,
                          orderBy: string, orderDir: string, pageParam: Option<int>, pageSizeParam: Option<int>,
                          select: (string, seq<string>) -> seq<T>) returns (r: Reply<BookingList<T>>)
    ensures !SignedIn(usernameCookie) ==> r == Reject(Unauthorized, LoginRequired)
    ensures SignedIn(usernameCookie) && !RoleIn(roleCookie, StaffRoles) ==> r == Reject(Forbidden, PermissionDenied)
    ensures r.Accept? <==> SignedIn(usernameCookie) && RoleIn(roleCookie, StaffRoles)
    ensures r.Accept? ==>
              && r.value.query == BookingQuery.BookingsQuery(Some(QueryFilter(params)), orderBy, orderDir)
              && BookingQuery.BookingsSelect <= r.value.query
              && r.value.args == BookingQuery.FilterArgs(Some(QueryFilter(params)))
              && BookingQuery.CountPlaceholders(r.value.query[|BookingQuery.BookingsSelect|..]) == |r.value.args|
              && r.value.listing == Paginate(select(r.value.query, r.value.args), pageParam, pageSizeParam)
  {
    if !SignedIn(usernameCookie) {
      return Reject(Unauthorized, LoginRequired);
    }
    if roleCookie.None? || (roleCookie.value != "Admin" && roleCookie.value != "Manager") {
      return Reject(Forbidden, PermissionDenied);
    }
    var query, args := BookingQuery.GetFilteredBookings(Some(QueryFilter(params)), orderBy, orderDir);
    var rows := select(query, args);
    r := Accept(BookingList(query, args, Paginate(rows, pageParam, pageSizeParam)));
  }

  /**
   * AdminCreateBookingHandler: Admin or Manager, required fields, then a booking only while
   * CheckTripAvailability says a seat is free. An admitted booking leaves the trip's active
   * count within the vehicle's capacity.
   */
  method AdminCreateBooking(db: Database, usernameCookie: Option<string>, roleCookie: Option<string>,
                            tripId: int, passenger: string, socialId: string, phone: string,
                            dateOfBirth: string, status: string) returns (r: Reply<int>)
    requires db.Valid()
    modifies db
    ensures db.Valid()
    ensures !SignedIn(usernameCookie) ==> r == Reject(Unauthorized, LoginRequired)
    ensures SignedIn(usernameCookie) && !RoleIn(roleCookie, StaffRoles) ==> r == Reject(Forbidden, PermissionDenied)
    ensures SignedIn(usernameCookie) && RoleIn(roleCookie, StaffRoles) && (tripId == 0 || passenger == "" || status == "") ==>
              r == Reject(BadRequest, "Trip, passenger name, and status are required")
    ensures SignedIn(usernameCookie) && RoleIn(roleCookie, StaffRoles) && tripId != 0 && passenger != "" && status != ""
            && CheckTripAvailability(old(db.trips), old(db.vehicles), old(db.bookings), tripId).Err? ==>
              r == Reject(InternalServerError, AvailabilityCheckFailed + TripNotFound)
    ensures SignedIn(usernameCookie) && RoleIn(roleCookie, StaffRoles) && tripId != 0 && passenger != "" && status != ""
            && CheckTripAvailability(old(db.trips), old(db.vehicles), old(db.bookings), tripId) == Ok(false) ==>
              r == Reject(BadRequest, "Trip is fully booked. No seats available.")
    ensures r.Accept? <==>
              SignedIn(usernameCookie) && RoleIn(roleCookie, StaffRoles) && tripId != 0 && passenger != "" && status != ""
              && CheckTripAvailability(old(db.trips), old(db.vehicles), old(db.bookings), tripId) == Ok(true)
    ensures r.Accept? ==>
              GetTripVehicleCapacity(db.trips, db.vehicles, tripId).Ok?
              && GetTripBookingsCount(db.bookings, tripId) <= GetTripVehicleCapacity(db.trips, db.vehicles, tripId).value
    ensures r.Reject? ==> db.State() == old(db.State())
    ensures r.Accept? ==>
              db.State() == old(db.State()).(bookings := old(db.bookings) + [Booking(r.value, tripId, passenger, socialId, phone, dateOfBirth, status)],
                                             lastBookingId := r.value)
  {
    if !SignedIn(usernameCookie) {
      return Reject(Unauthorized, LoginRequired);
    }
    if roleCookie.None? || (roleCookie.value != "Admin" && roleCookie.value != "Manager") {
      return Reject(Forbidden, PermissionDenied);
    }
    r := BookSeat(db, tripId, passenger, socialId, phone, dateOfBirth, status);
  }

  /** The part of AdminCreateBookingHandler after the role check: the fields, the seat check, the insert. */
  method BookSeat(db: Database, tripId: int, passenger: string, socialId: string, phone: string,
                  dateOfBirth: string, status: string) returns (r: Reply<int>)
    requires db.Valid()
    modifies db
    ensures db.Valid()
    ensures tripId == 0 || passenger == "" || status == "" ==>
              r == Reject(BadRequest, "Trip, passenger name, and status are required")
    ensures tripId != 0 && passenger != "" && status != ""
            && CheckTripAvailability(old(db.trips), old(db.vehicles), old(db.bookings), tripId).Err? ==>
              r == Reject(InternalServerError, AvailabilityCheckFailed + TripNotFound)
    ensures tripId != 0 && passenger != "" && status != ""
            && CheckTripAvailability(old(db.trips), old(db.vehicles), old(db.bookings), tripId) == Ok(false) ==>
              r == Reject(BadRequest, "Trip is fully booked. No seats available.")
    ensures r.Accept? <==>
              tripId != 0 && passenger != "" && status != ""
              && CheckTripAvailability(old(db.trips), old(db.vehicles), old(db.bookings), tripId) == Ok(true)
    ensures r.Accept? ==>
              GetTripVehicleCapacity(db.trips, db.vehicles, tripId).Ok?
              && GetTripBookingsCount(db.bookings, tripId) <= GetTripVehicleCapacity(db.trips, db.vehicles, tripId).value
    ensures r.Reject? ==> db.State() == old(db.State())
    ensures r.Accept? ==>
              db.State() == old(db.State()).(bookings := old(db.bookings) + [Booking(r.value, tripId, passenger, socialId, phone, dateOfBirth, status)],
                                             lastBookingId := r.value)
  {
    if tripId == 0 || passenger == "" || status == "" {
      return Reject(BadRequest, "Trip, passenger name, and status are required");
    }
    var available := CheckTripAvailability(db.trips, db.vehicles, db.bookings, tripId);
    if available.Err? {
      return Reject(InternalServerError, AvailabilityCheckFailed + available.message);
    }
    if !available.value {
      return Reject(BadRequest, "Trip is fully booked. No seats available.");
    }
    CapacityCheckFindsTrip(db.trips, db.vehicles, tripId);
    ghost var before := db.bookings;
    var added := db.AddBooking(tripId, passenger, socialId, phone, dateOfBirth, status);
    if added.Err? {
      assert false;
      return Reject(InternalServerError, BookingInsertFailed);
    }
    AdmissionWithinCapacity(db.trips, db.vehicles, before, Booking(added.value, tripId, passenger, socialId, phone, dateOfBirth, status));
    r := Accept(added.value);
  }

  /** A trip whose capacity can be read exists. */
  lemma CapacityCheckFindsTrip(trips: seq<Trip>, vehicles: seq<Vehicle>, tripId: int)
    requires GetTripVehicleCapacity(trips, vehicles, tripId).Ok?
    ensures HasTrip(trips, tripId)
  {
    var i, j :| 0 <= i < |trips| && 0 <= j < |vehicles| && trips[i].id == tripId
                && vehicles[j].id == trips[i].vehicleId && vehicles[j].capacity == GetTripVehicleCapacity(trips, vehicles, tripId).value;
  }

  /**
   * AdminUpdateBookingStatusHandler: any non-empty status is written once the row is found;
   * the capacity is only logged, so re-activating a cancelled booking of a full trip succeeds.
   */
  method AdminUpdateBookingStatus(db: Database, bookingId: int, status: string, fault: Option<string>) returns (r: Reply<()>)
    requires db.Valid()
    modifies db
    ensures db.Valid()
    ensures bookingId == 0 || status == "" ==> r == Reject(BadRequest, "ID and status required")
    ensures bookingId != 0 && status != "" && FindBooking(old(db.bookings), bookingId).None? ==>
              r == Reject(InternalServerError, "Failed to retrieve booking information")
    ensures bookingId != 0 && status != "" && FindBooking(old(db.bookings), bookingId).Some? && fault.Some? ==>
              r == Reject(InternalServerError, "error updating booking status: " + fault.value)
    ensures r.Accept? <==> bookingId != 0 && status != "" && FindBooking(old(db.bookings), bookingId).Some? && fault.None?
    ensures r.Reject? ==> db.State() == old(db.State())
    ensures r.Accept? ==> db.State() == old(db.State()).(bookings := SetBookingStatus(old(db.bookings), bookingId, status))
  {
    if bookingId == 0 || status == "" {
      return Reject(BadRequest, "ID and status required");
    }
    var current := FindBooking(db.bookings, bookingId);
    if current.None? {
      return Reject(InternalServerError, "Failed to retrieve booking information");
    }
    var o := db.UpdateBookingStatus(bookingId, status, fault);
    if o.Fail? {
      return Reject(InternalServerError, o.message);
    }
    r := Accept(());
  }

  /** AdminDeleteBookingHandler: the lookup before the delete only feeds a log line. */
  method AdminDeleteBooking(db: Database, idParam: Option<int>, fault: Option<string>) returns (r: Reply<()>)
    requires db.Valid()
    modifies db
    ensures db.Valid()
    ensures idParam.None? ==> r == Reject(BadRequest, "Invalid booking ID")
    ensures idParam.Some? && fault.Some? ==> r == Reject(InternalServerError, DeleteFailed)
    ensures r.Accept? <==> idParam.Some? && fault.None?
    ensures r.Reject? ==> db.State() == old(db.State())
    ensures r.Accept? ==> db.State() == old(db.State()).(bookings := RemoveBookingRows(old(db.bookings), false, idParam.value))
  {
    if idParam.None? {
      return Reject(BadRequest, "Invalid booking ID");
    }
    var o := db.DeleteBooking(idParam.value, fault);
    if o.Fail? {
      return Reject(InternalServerError, DeleteFailed);
    }
    r := Accept(());
  }

  // ===========================================================================
  // Capacity report
  // ===========================================================================

  datatype CapacityReport = CapacityReport(capacity: int, booked: int, available: int, isAvailable: bool)

  /**
   * AdminTripCapacityHandler: `available = capacity - booked`, raised to 0 when negative, and
   * `is_available = available > 0`.
   */
  function AdminTripCapacity(t: Tables, idParam: Option<int>): (r: Reply<CapacityReport>)
    ensures idParam.None? ==> r == Reject(BadRequest, "Invalid trip ID")
    ensures idParam.Some? && GetTripVehicleCapacity(t.trips, t.vehicles, idParam.value).Err? ==>
              r == Reject(InternalServerError, "Failed to get trip capacity")
    ensures r.Accept? <==> idParam.Some? && GetTripVehicleCapacity(t.trips, t.vehicles, idParam.value).Ok?
    ensures r.Accept? ==>
              && r.value.capacity == GetTripVehicleCapacity(t.trips, t.vehicles, idParam.value).value
              && r.value.booked == GetTripBookingsCount(t.bookings, idParam.value)
              && r.value.available >= 0
              && r.value.available >= r.value.capacity - r.value.booked
              && (r.value.available == 0 || r.value.available == r.value.capacity - r.value.booked)
              && (r.value.isAvailable <==> r.value.booked < r.value.capacity)
  {
    if idParam.None? then Reject(BadRequest, "Invalid trip ID")
    else
      match GetTripVehicleCapacity(t.trips, t.vehicles, idParam.value)
      case Err(_) => Reject(InternalServerError, "Failed to get trip capacity")
      case Ok(capacity) =>
        var booked := GetTripBookingsCount(t.bookings, idParam.value);
        var available := if capacity - booked < 0 then 0 else capacity - booked;
        Accept(CapacityReport(capacity, booked, available, available > 0))
  }

  /** The report's `is_available` is the admission decision of AdminCreateBooking. */
  lemma CapacityReportMatchesAdmission(t: Tables, tripId: int)
    requires AdminTripCapacity(t, Some(tripId)).Accept?
    ensures AdminTripCapacity(t, Some(tripId)).value.isAvailable
            <==> CheckTripAvailability(t.trips, t.vehicles, t.bookings, tripId) == Ok(true)
  {
  }
}
