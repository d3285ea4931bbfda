/** The dashboard: the new-reservation form and the requests it sends. */
module Dashboard {
  import opened Wrappers

  datatype User = User(id: string, name: string)

  /** The three inputs of the "Nova Reserva" form, as the date and time inputs give them. */
  datatype NewEventForm = NewEventForm(date: string, start: string, end: string)

  const EmptyForm := NewEventForm("", "", "")
  const InitialBuilding := "Bloco A"
  const TitlePrefix := "Reserva de "

  /** The reservation object that the create request carries. */
  datatype ReservationRequest = ReservationRequest(
    title: string, start: string, end: string, building: string, userId: string, userName: string)

  /** A JSON object of string fields, as spread and overridden by the handlers. */
  type Payload = map<string, string>

  datatype Body = NoBody | Reservation(reservation: ReservationRequest) | Fields(fields: Payload)

  datatype Request = Request(verb: string, path: string, body: Body)

  const ReservationsPath := "/reservations"

  /** `/reservations/${segment}`: the collection path, a slash, then the segment (a building or an id). */
  function ReservationPath(segment: string): (path: string)
    ensures |path| == |ReservationsPath| + 1 + |segment|
    ensures path[..|ReservationsPath| + 1] == ReservationsPath + "/" && path[|ReservationsPath| + 1..] == segment
  {
    ReservationsPath + "/" + segment
  }

  /** All three inputs hold something: `newEvent.date && newEvent.start && newEvent.end`. */
  predicate Complete(form: NewEventForm) {
    form.date != "" && form.start != "" && form.end != ""
  }

  /**
   * The reservation a submitted form describes: there is one exactly when
   * every field is filled in, and it belongs to the current building and user.
   */
  function BuildEvent(form: NewEventForm, building: string, user: User): (r: Option<ReservationRequest>)
    ensures r.Some? <==> Complete(form)
    ensures r.Some? ==> r.value.building == building && r.value.userId == user.id && r.value.userName == user.name
  {
    if Complete(form) then
      Some(ReservationRequest(TitlePrefix + user.name, form.date + "T" + form.start, form.date + "T" + form.end,
                              building, user.id, user.name))
    else None
  }

  /** Splits a local date-time text at its first 'T'. */
  function SplitAtT(s: string): (string, string) {
    if s == [] then ([], [])
    else if s[0] == 'T' then ([], s[1..])
    else
      var (date, time) := SplitAtT(s[1..]);
      ([s[0]] + date, time)
  }

  lemma {:induction false} SplitJoined(date: string, time: string)
    requires 'T' !in date
    ensures SplitAtT(date + "T" + time) == (date, time)
  {
    if date != [] {
      assert (date + "T" + time)[1..] == date[1..] + "T" + time;
      SplitJoined(date[1..], time);
      assert [date[0]] + date[1..] == date;
    } else {
      assert (date + "T" + time)[1..] == time;
    }
  }

  /**
   * The start and end of a built reservation split back into the form's
   * date and times (a date input's value holds no 'T'), and its title is the
   * prefix followed by the user's name.
   */
  lemma BuiltEventRecoversForm(form: NewEventForm, building: string, user: User)
    requires Complete(form) && 'T' !in form.date
    ensures var e := BuildEvent(form, building, user).value;
      && SplitAtT(e.start) == (form.date, form.start)
      && SplitAtT(e.end) == (form.date, form.end)
      && e.title[..|TitlePrefix|] == TitlePrefix && e.title[|TitlePrefix|..] == user.name
  {
    SplitJoined(form.date, form.start);
    SplitJoined(form.date, form.end);
  }

  /** `axios.post("/reservations", event)`: the built event is posted to the collection itself. */
  function CreateRequest(event: ReservationRequest): (r: Request)
    ensures r.verb == "POST" && r.path == ReservationsPath && r.body.Reservation? && r.body.reservation == event
  {
    Request("POST", ReservationsPath, Reservation(event))
  }

  /** The fields a calendar drag sends: the event's new bounds as ISO text. */
  function DropUpdate(start: string, end: string): (p: Payload)
    ensures p.Keys == {"start", "end"} && p["start"] == start && p["end"] == end
  {
    map["start" := start, "end" := end]
  }

  /**
   * `{ ...updatedEvent, userName: user.name }`: every field of the update is
   * kept except `userName`, which the later key overrides with the current
   * user's name.
   */
  function UpdatePayload(updated: Payload, user: User): (p: Payload)
    ensures p.Keys == updated.Keys + {"userName"}
    ensures p["userName"] == user.name
    ensures forall k :: k in updated && k != "userName" ==> p[k] == updated[k]
  {
    updated + map["userName" := user.name]
  }

  /** The body of the delete request: the current user's name and nothing else. */
  function DeleteBody(user: User): (p: Payload)
    ensures p.Keys == {"userName"} && p["userName"] == user.name
  {
    map["userName" := user.name]
  }

  /** `handleUpdateEvent(eventId, updatedEvent)`: a PUT on the event's own path with the update plus userName. */
  function UpdateRequest(eventId: string, updated: Payload, user: User): (r: Request)
    ensures r.verb == "PUT" && r.path == ReservationPath(eventId)
    ensures r.body.Fields? && r.body.fields.Keys == updated.Keys + {"userName"} && r.body.fields["userName"] == user.name
    ensures forall k :: k in updated && k != "userName" ==> r.body.fields[k] == updated[k]
  {
    Request("PUT", ReservationPath(eventId), Fields(UpdatePayload(updated, user)))
  }

  /** `handleDeleteEvent(eventId)`: a DELETE on the event's own path whose body names the user. */
  function DeleteRequest(eventId: string, user: User): (r: Request)
    ensures r.verb == "DELETE" && r.path == ReservationPath(eventId)
    ensures r.body.Fields? && r.body.fields.Keys == {"userName"} && r.body.fields["userName"] == user.name
  {
    Request("DELETE", ReservationPath(eventId), Fields(DeleteBody(user)))
  }

  /**
   * The calendar's `eventDrop`: the moved event's new bounds are sent as an
   * update, so the request holds exactly start, end and userName.
   */
  function DropRequest(eventId: string, start: string, end: string, user: User): (r: Request)
    ensures r.verb == "PUT" && r.path == ReservationPath(eventId)
    ensures r.body.Fields? && r.body.fields.Keys == {"start", "end", "userName"}
    ensures r.body.fields["start"] == start && r.body.fields["end"] == end && r.body.fields["userName"] == user.name
  {
    UpdateRequest(eventId, DropUpdate(start, end), user)
  }

  /**
   * The calendar's `eventClick`: `confirmed` is the answer to the
   * confirmation dialog; a delete is sent only when it is yes.
   */
  function ClickRequest(eventId: string, user: User, confirmed: bool): (r: Option<Request>)
    ensures r.Some? <==> confirmed
    ensures r.Some? ==> r.value.verb == "DELETE" && r.value.path == ReservationPath(eventId)
    ensures r.Some? ==> r.value == DeleteRequest(eventId, user) && r.value.body == Fields(map["userName" := user.name])
  {
    if confirmed then Some(DeleteRequest(eventId, user)) else None
  }

  /** `fetchEvents`: the GET of the current building's reservations. */
  function EventsRequest(building: string): (r: Request)
    ensures r.verb == "GET" && r.path == ReservationPath(building) && r.body == NoBody
  {
    Request("GET", ReservationPath(building), NoBody)
  }

  const MissingFieldsAlert := "Por favor, preencha todos os campos."
  const CreatedAlert := "Reserva criada com sucesso! ID: "
  const SaveFailedAlert := "Erro ao salvar reserva: "

  /** The dashboard's component state. */
  class DashboardState {
    var building: string
    var events: seq<Payload>
    var newEvent: NewEventForm

    constructor ()
      ensures building == InitialBuilding && events == [] && newEvent == EmptyForm
    {
      building, events, newEvent := InitialBuilding, [], EmptyForm;
    }

    /** The request `fetchEvents` sends for the page's current building. */
    function Fetch(): (r: Request)
      reads this
      ensures r == EventsRequest(building)
      ensures r.verb == "GET" && r.path == ReservationPath(building) && r.body == NoBody
    {
      EventsRequest(building)
    }

    /**
     * The building select: `setBuilding(e.target.value)`. The effect that
     * depends on the building then fetches the new building's reservations.
     */
    method SelectBuilding(b: string)
      modifies this
      ensures building == b && events == old(events) && newEvent == old(newEvent)
      ensures Fetch() == EventsRequest(b)
    {
      building := b;
    }

    /** `setEvents(res.data)` once a fetch succeeds. */
    method ReceiveEvents(fetched: seq<Payload>)
      modifies this
      ensures events == fetched && building == old(building) && newEvent == old(newEvent)
    {
      events := fetched;
    }

    /** `setNewEvent({ ...newEvent, date: e.target.value })`. */
    method EditDate(value: string)
      modifies this
      ensures newEvent == old(newEvent).(date := value)
      ensures building == old(building) && events == old(events)
    {
      newEvent := newEvent.(date := value);
    }

    /** `setNewEvent({ ...newEvent, start: e.target.value })`. */
    method EditStart(value: string)
      modifies this
      ensures newEvent == old(newEvent).(start := value)
      ensures building == old(building) && events == old(events)
    {
      newEvent := newEvent.(start := value);
    }

    /** `setNewEvent({ ...newEvent, end: e.target.value })`. */
    method EditEnd(value: string)
      modifies this
      ensures newEvent == old(newEvent).(end := value)
      ensures building == old(building) && events == old(events)
    {
      newEvent := newEvent.(end := value);
    }

    /**
     * `handleAddEvent`. `response` is what the server answers to the create
     * request: the new reservation's id, or the error text shown. Nothing is
     * sent for an incomplete form; the form is cleared only after a
     * successful create.
     */
    method AddEvent(user: User, response: Result<string, string>) returns (sent: Option<Request>, alert: string)
      modifies this
      ensures sent.Some? <==> Complete(old(newEvent))
      ensures sent.Some? ==> sent.value == CreateRequest(BuildEvent(old(newEvent), building, user).value)
      ensures newEvent == (if sent.Some? && response.Ok? then EmptyForm else old(newEvent))
      ensures alert == (if sent.None? then MissingFieldsAlert
                        else if response.Ok? then CreatedAlert + response.value
                        else SaveFailedAlert + response.error)
      ensures building == old(building) && events == old(events)
    {
      var event := BuildEvent(newEvent, building, user);
      if event.Some? {
        sent := Some(CreateRequest(event.value));
        match response
        case Ok(id) =>
          newEvent := EmptyForm;
          alert := CreatedAlert + id;
        case Err(message) =>
          alert := SaveFailedAlert + message;
      } else {
        sent := None;
        alert := MissingFieldsAlert;
      }
    }
  }
}
