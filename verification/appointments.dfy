/** The appointment-selection store of the frontend: the selected service
    (at most one), the chosen date and time, the edited appointment's id, the
    day's bookable hours and the slots already taken that day. Network calls,
    `confirm` dialogs and the date-format helpers are parameters. */
module Appointments {
  import opened Seqs

  const START_HOUR := 10
  const END_HOUR := 19

  datatype Service = Service(id: string, name: string, price: int)

  /** An appointment as the API returns it; `time` is a slot label such as "10:00". */
  datatype Appointment = Appointment(id: string, date: string, time: string, services: seq<Service>)

  /** The body `saveAppointment` sends. */
  datatype Payload = Payload(userId: string, name: string, email: string, services: seq<string>,
                             date: string, time: string, totalAmount: int)

  datatype SaveRequest = Create(payload: Payload) | Update(id: string, payload: Payload)

  /** How the date watcher ends: normally, with the rejection of
      `getByDate` propagated out of the `await`, or with the TypeError that
      reading `[0].time` of an empty filter result raises. */
  datatype WatchOutcome = Finished | FetchFailed | TypeError

  // ---------------------------------------------------------------------
  // Slot labels

  function Digit(d: nat): (c: char)
    requires d < 10
    ensures '0' <= c <= '9' && c as int - '0' as int == d
  {
    ('0' as int + d) as char
  }

  /** JavaScript's decimal rendering of a non-negative integer. */
  function DecimalString(n: nat): (s: string)
    ensures |s| >= 1 && forall k :: 0 <= k < |s| ==> '0' <= s[k] <= '9'
  {
    if n < 10 then [Digit(n)] else DecimalString(n / 10) + [Digit(n % 10)]
  }

  /** `hour + ":00"`. */
  function HourLabel(hour: nat): string
  {
    DecimalString(hour) + ":00"
  }

  /** The labels the mount hook pushes, one per hour from START_HOUR to END_HOUR. */
  function OpeningHours(): (hours: seq<string>)
    ensures |hours| == END_HOUR - START_HOUR + 1
    ensures forall k :: 0 <= k < |hours| ==> hours[k] == HourLabel(START_HOUR + k)
  {
    seq(END_HOUR - START_HOUR + 1, k requires 0 <= k => HourLabel(START_HOUR + k))
  }

  lemma TwoDigitLabel(hour: nat)
    requires 10 <= hour <= 19
    ensures HourLabel(hour) == ['1', Digit(hour - 10), ':', '0', '0']
  {
    assert hour / 10 == 1 && hour % 10 == hour - 10;
    assert DecimalString(hour) == [Digit(1), Digit(hour - 10)];
  }

  /** The label at position `k` of the hours is "1k:00". */
  lemma HourAt(k: nat)
    requires k < |OpeningHours()|
    ensures OpeningHours()[k] == ['1', Digit(k), ':', '0', '0']
  {
    TwoDigitLabel(START_HOUR + k);
  }

  /** The hours are exactly "10:00" to "19:00". */
  lemma OpeningHoursAreTenToNineteen()
    ensures OpeningHours() == ["10:00", "11:00", "12:00", "13:00", "14:00",
                               "15:00", "16:00", "17:00", "18:00", "19:00"]
  {
    var h := OpeningHours();
    assert h[0] == "10:00" by { HourAt(0); assert Digit(0) == '0'; }
    assert h[1] == "11:00" by { HourAt(1); assert Digit(1) == '1'; }
    assert h[2] == "12:00" by { HourAt(2); assert Digit(2) == '2'; }
    assert h[3] == "13:00" by { HourAt(3); assert Digit(3) == '3'; }
    assert h[4] == "14:00" by { HourAt(4); assert Digit(4) == '4'; }
    assert h[5] == "15:00" by { HourAt(5); assert Digit(5) == '5'; }
    assert h[6] == "16:00" by { HourAt(6); assert Digit(6) == '6'; }
    assert h[7] == "17:00" by { HourAt(7); assert Digit(7) == '7'; }
    assert h[8] == "18:00" by { HourAt(8); assert Digit(8) == '8'; }
    assert h[9] == "19:00" by { HourAt(9); assert Digit(9) == '9'; }
  }

  /** JavaScript's `<` on strings: lexicographic order of the characters. */
  predicate StringLess(a: string, b: string)
  {
    if a == [] then b != []
    else if b == [] then false
    else if a[0] != b[0] then a[0] < b[0]
    else StringLess(a[1..], b[1..])
  }

  /** The hours are listed in strictly ascending order, as strings too. */
  lemma OpeningHoursAscending(i: nat, j: nat)
    requires i < j < |OpeningHours()|
    ensures StringLess(OpeningHours()[i], OpeningHours()[j])
  {
    var a, b := OpeningHours()[i], OpeningHours()[j];
    TwoDigitLabel(START_HOUR + i);
    TwoDigitLabel(START_HOUR + j);
    assert a[0] == b[0] && a[1..][0] == Digit(i) && b[1..][0] == Digit(j);
  }

  // ---------------------------------------------------------------------
  // Computed values

  function HasServiceId(id: string): Service -> bool { (s: Service) => s.id == id }
  function HasAppointmentId(id: string): Appointment -> bool { (a: Appointment) => a.id == id }
  function AtTime(hour: string): Appointment -> bool { (a: Appointment) => a.time == hour }

  /** `isServiceSelected(id)`: `services.some(service => service.id === id)`. */
  function IsServiceSelected(services: seq<Service>, id: string): (b: bool)
    ensures b <==> exists s :: s in services && s.id == id
  {
    AnyIsExists(services, HasServiceId(id));
    Any(services, HasServiceId(id))
  }

  /** `noServicesSelected`. */
  function NoServicesSelected(services: seq<Service>): (b: bool)
    ensures b <==> forall id :: !IsServiceSelected(services, id)
  {
    if services != [] then assert IsServiceSelected(services, services[0].id); false
    else true
  }

  /** The sum of the prices, added up from the last one to the first. */
  function SumPrices(services: seq<Service>): int
  {
    if services == [] then 0 else SumPrices(services[..|services| - 1]) + services[|services| - 1].price
  }

  /** The accumulating step of `reduce((total, service) => total + service.price, acc)`. */
  function Reduce(services: seq<Service>, acc: int): int
  {
    if services == [] then acc else Reduce(services[1..], acc + services[0].price)
  }

  lemma {:induction false} SumPricesFirst(services: seq<Service>)
    requires services != []
    ensures SumPrices(services) == services[0].price + SumPrices(services[1..])
    decreases |services|
  {
    if |services| > 1 {
      var init := services[..|services| - 1];
      assert init[1..] == services[1..][..|services[1..]| - 1];
      SumPricesFirst(init);
    } else {
      assert services[1..] == [];
    }
  }

  lemma {:induction false} ReduceIsSum(services: seq<Service>, acc: int)
    ensures Reduce(services, acc) == acc + SumPrices(services)
    decreases |services|
  {
    if services != [] {
      ReduceIsSum(services[1..], acc + services[0].price);
      SumPricesFirst(services);
    }
  }

  /** `totalAmount`: the prices of the selected services added up; 0 when
      none is selected. */
  function TotalAmount(services: seq<Service>): (total: int)
    ensures total == SumPrices(services)
    ensures services == [] ==> total == 0
  {
    ReduceIsSum(services, 0);
    Reduce(services, 0)
  }

  /** Totals add up over a split of the selection. */
  lemma {:induction false} TotalAmountAppend(a: seq<Service>, b: seq<Service>)
    ensures TotalAmount(a + b) == TotalAmount(a) + TotalAmount(b)
    decreases |b|
  {
    if b != [] {
      var c := a + b;
      assert c[..|c| - 1] == a + b[..|b| - 1];
      TotalAmountAppend(a, b[..|b| - 1]);
    } else {
      assert a + b == a;
    }
  }

  /** `isValidReservation`: a service, a date and a time are all chosen. */
  function IsValidReservation(services: seq<Service>, date: string, time: string): (b: bool)
    ensures b <==> !NoServicesSelected(services) && IsDateSelected(date) && time != ""
  {
    |services| != 0 && |date| != 0 && |time| != 0
  }

  /** `isDateSelected`: the truthiness of the date string, which in
      JavaScript holds exactly for a non-empty string. */
  function IsDateSelected(date: string): (b: bool)
    ensures b <==> |date| > 0
  {
    date != ""
  }

  /** `disableTime(hour)`: some appointment of the day already holds the slot. */
  function DisableTime(appointmentsByDate: seq<Appointment>, hour: string): (b: bool)
    ensures b <==> exists a :: a in appointmentsByDate && a.time == hour
  {
    Find(appointmentsByDate, AtTime(hour)).Some?
  }

  // ---------------------------------------------------------------------
  // List updates

  /** `filter(appointment => appointment.id !== id)`. */
  function WithoutAppointment(appointments: seq<Appointment>, id: string): (r: seq<Appointment>)
    ensures forall a :: a in r <==> a in appointments && a.id != id
  {
    Filter(appointments, (a: Appointment) => a.id != id)
  }

  /** Removing by id keeps the other appointments in their order: it works
      piecewise on a split of the list, and on one appointment it drops it
      exactly when the id matches. */
  lemma WithoutAppointmentKeepsOrder(a: seq<Appointment>, b: seq<Appointment>, x: Appointment, id: string)
    ensures WithoutAppointment(a + b, id) == WithoutAppointment(a, id) + WithoutAppointment(b, id)
    ensures WithoutAppointment([x], id) == if x.id == id then [] else [x]
  {
    FilterAppend(a, b, (a: Appointment) => a.id != id);
    assert [x][1..] == [];
  }

  /** While editing, the slot of the edited appointment is taken only if
      another appointment of the day holds it too. */
  lemma EditedSlotIsFree(fetched: seq<Appointment>, id: string, hour: string)
    ensures DisableTime(WithoutAppointment(fetched, id), hour)
        <==> exists a :: a in fetched && a.id != id && a.time == hour
  {
  }

  /** `filter(selectedService => selectedService.id !== id)`. */
  function WithoutService(services: seq<Service>, id: string): (r: seq<Service>)
    ensures forall s :: s in r <==> s in services && s.id != id
    ensures |r| <= |services|
  {
    Filter(services, (s: Service) => s.id != id)
  }

  /** The selection `onServiceSelected(service)` leaves: deselect when a
      service with that id is selected, refuse a second service, else append. */
  function Toggle(selected: seq<Service>, service: Service): (r: seq<Service>)
    ensures IsServiceSelected(selected, service.id) ==>
      forall s :: s in r <==> s in selected && s.id != service.id
    ensures !IsServiceSelected(selected, service.id) && |selected| == 1 ==> r == selected
    ensures !IsServiceSelected(selected, service.id) && |selected| != 1 ==>
      r == selected + [service] && IsServiceSelected(r, service.id)
  {
    if IsServiceSelected(selected, service.id) then WithoutService(selected, service.id)
    else if |selected| == 1 then selected
    else selected + [service]
  }

  /** At most one service is ever selected through the toggle. */
  lemma ToggleKeepsAtMostOne(selected: seq<Service>, service: Service)
    requires |selected| <= 1
    ensures |Toggle(selected, service)| <= 1
  {
  }

  /** Toggling the same service twice from an empty selection gives it back empty. */
  lemma ToggleTwiceFromEmpty(service: Service)
    ensures Toggle([], service) == [service]
    ensures Toggle(Toggle([], service), service) == []
  {
    assert IsServiceSelected([service], service.id) by { assert service in [service]; }
  }

  /** With room for it, a toggle flips whether the service is selected;
      it never selects a service with another id. */
  lemma ToggleFlips(selected: seq<Service>, service: Service, other: string)
    requires selected == [] || IsServiceSelected(selected, service.id)
    requires other != service.id
    ensures IsServiceSelected(Toggle(selected, service), service.id)
        == !IsServiceSelected(selected, service.id)
    ensures IsServiceSelected(Toggle(selected, service), other)
        ==> IsServiceSelected(selected, other)
  {
    if !IsServiceSelected(selected, service.id) {
      assert Toggle(selected, service) == [service];
      assert service in [service];
    }
  }

  /** The ids `services.map(service => service.id)` sends. */
  function ServiceIds(services: seq<Service>): (ids: seq<string>)
    ensures |ids| == |services|
    ensures forall k :: 0 <= k < |services| ==> ids[k] == services[k].id
  {
    seq(|services|, k requires 0 <= k < |services| => services[k].id)
  }

  /** The request `saveAppointment` makes: an update of the edited
      appointment when there is one, a creation otherwise. `isoDate` is
      `convertToISO(date)`. */
  function AppointmentRequest(appointmentId: string, services: seq<Service>, isoDate: string,
                              time: string, userId: string, name: string, email: string): (r: SaveRequest)
    ensures r.Update? <==> appointmentId != ""
    ensures r.Update? ==> r.id == appointmentId
    ensures |r.payload.services| == |services|
    ensures forall k :: 0 <= k < |services| ==> r.payload.services[k] == services[k].id
    ensures r.payload.totalAmount == SumPrices(services)
    ensures r.payload.date == isoDate && r.payload.time == time && r.payload.userId == userId
    ensures r.payload.name == name && r.payload.email == email
  {
    var payload := Payload(userId, name, email, ServiceIds(services), isoDate, time, TotalAmount(services));
    if appointmentId != "" then Update(appointmentId, payload) else Create(payload)
  }

  // ---------------------------------------------------------------------
  // The stores

  /** The part of the user store this store reads and writes. */
  class UserStore {
    var userId: string
    var name: string
    var email: string
    var userAppointments: seq<Appointment>

    constructor (userId: string, name: string, email: string, appointments: seq<Appointment>)
      ensures this.userId == userId && this.name == name && this.email == email
      ensures userAppointments == appointments
    {
      this.userId := userId;
      this.name := name;
      this.email := email;
      userAppointments := appointments;
    }
  }

  class AppointmentsStore {
    var appointmentId: string
    var services: seq<Service>
    var date: string
    var time: string
    var appointmentsByDate: seq<Appointment>
    var hours: seq<string>
    const user: UserStore

    constructor (user: UserStore)
      ensures this.user == user
      ensures appointmentId == "" && services == [] && date == "" && time == ""
      ensures appointmentsByDate == [] && hours == []
    {
      this.user := user;
      appointmentId, services, date, time := "", [], "", "";
      appointmentsByDate, hours := [], [];
    }

    /** The mount hook: pushes one label per hour, START_HOUR to END_HOUR. */
    method OnMounted()
      modifies this`hours
      ensures hours == old(hours) + OpeningHours()
    {
      var hour := START_HOUR;
      while hour <= END_HOUR
        invariant START_HOUR <= hour <= END_HOUR + 1
        invariant hours == old(hours) + OpeningHours()[..hour - START_HOUR]
      {
        assert OpeningHours()[..hour - START_HOUR + 1]
            == OpeningHours()[..hour - START_HOUR] + [HourLabel(hour)];
        hours := hours + [HourLabel(hour)];
        hour := hour + 1;
      }
      assert OpeningHours()[..hour - START_HOUR] == OpeningHours();
    }

    /** The watcher on `date`, run with what `getByDate(date)` gave: the list,
        or None when the request failed. It clears the time; a failed request
        leaves the previous day's list in place. With a date and an edited
        appointment it keeps the day's other appointments and restores the
        edited one's slot, failing with a TypeError when the edited
        appointment is not in the list. */
    method OnDateChanged(fetched: Option<seq<Appointment>>) returns (outcome: WatchOutcome)
      modifies this`time, this`appointmentsByDate
      ensures date == "" ==>
        outcome == Finished && time == "" && appointmentsByDate == old(appointmentsByDate)
      ensures date != "" && fetched.None? ==>
        outcome == FetchFailed && time == "" && appointmentsByDate == old(appointmentsByDate)
      ensures date != "" && fetched.Some? && appointmentId == "" ==>
        outcome == Finished && time == "" && appointmentsByDate == fetched.value
      ensures date != "" && fetched.Some? && appointmentId != "" ==>
        appointmentsByDate == WithoutAppointment(fetched.value, appointmentId) &&
        match Find(fetched.value, HasAppointmentId(appointmentId))
        case Some(edited) => outcome == Finished && time == edited.time
        case None => outcome == TypeError && time == ""
    {
      time := "";
      if date == "" {
        return Finished;
      }
      if fetched.None? {
        return FetchFailed;
      }
      var data := fetched.value;
      if appointmentId != "" {
        appointmentsByDate := WithoutAppointment(data, appointmentId);
        var edited := Find(data, HasAppointmentId(appointmentId));
        if edited.None? {
          return TypeError;
        }
        time := edited.value.time;
      } else {
        appointmentsByDate := data;
      }
      outcome := Finished;
    }

    /** Loads an appointment for editing; `toDisplay` is `convertToDDMMYYYY`. */
    method SetSelectedAppointment(appointment: Appointment, toDisplay: string -> string)
      modifies this`services, this`date, this`time, this`appointmentId
      ensures services == appointment.services && date == toDisplay(appointment.date)
      ensures time == appointment.time && appointmentId == appointment.id
    {
      services := appointment.services;
      date := toDisplay(appointment.date);
      time := appointment.time;
      appointmentId := appointment.id;
    }

    /** `onServiceSelected`. */
    method OnServiceSelected(service: Service)
      modifies this`services
      ensures services == Toggle(old(services), service)
      ensures |old(services)| <= 1 ==> |services| <= 1
    {
      if IsServiceSelected(services, service.id) {
        services := WithoutService(services, service.id);
      } else {
        if |services| == 1 {
          return;
        }
        services := services + [service];
      }
    }

    /** `clearAppointmentData`: forgets the edited id, the selection, the
        date and the time, and nothing else. */
    method ClearAppointmentData()
      modifies this`appointmentId, this`services, this`date, this`time
      ensures appointmentId == "" && services == [] && date == "" && time == ""
      ensures appointmentsByDate == old(appointmentsByDate) && hours == old(hours)
      ensures !IsValidReservation(services, date, time) && !IsDateSelected(date)
    {
      appointmentId := "";
      services := [];
      date := "";
      time := "";
    }

    /** `saveAppointment`: sends an update or a creation and clears the
        store whatever the outcome; `apiSucceeded` only chooses between a
        toast and a log line. `toIso` is `convertToISO`. */
    method SaveAppointment(toIso: string -> string, apiSucceeded: bool) returns (request: SaveRequest)
      modifies this`appointmentId, this`services, this`date, this`time
      ensures request == AppointmentRequest(old(appointmentId), old(services), toIso(old(date)),
                                            old(time), user.userId, user.name, user.email)
      ensures appointmentId == "" && services == [] && date == "" && time == ""
      ensures appointmentsByDate == old(appointmentsByDate) && hours == old(hours)
    {
      request := AppointmentRequest(appointmentId, services, toIso(date), time,
                                    user.userId, user.name, user.email);
      ClearAppointmentData();
    }

    /** `cancelAppointment(id)`: when the user confirms and the deletion
        succeeds, the appointment leaves the user's list. */
    method CancelAppointment(id: string, confirmed: bool, deleted: bool)
      modifies user`userAppointments
      ensures confirmed && deleted ==>
        user.userAppointments == WithoutAppointment(old(user.userAppointments), id)
      ensures !(confirmed && deleted) ==> user.userAppointments == old(user.userAppointments)
    {
      if confirmed && deleted {
        user.userAppointments := WithoutAppointment(user.userAppointments, id);
      }
    }
  }
}
