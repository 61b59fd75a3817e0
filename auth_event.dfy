/** SubscriberAuthEventStep (xos/synchronizer/event_steps/auth_event.py):
    an authentication event names an OpenFlow port; the ONU behind it is
    looked up, and the authentication state of that ONU's service instance is
    recorded. An unknown port or an unknown instance fails before any write;
    no instance is ever created here. */
module AuthEvent {
  import opened Common
  import opened Records
  import Helpers

  /** The decoded payload of an `authentication.events` message. */
  datatype Event = Event(deviceId: string, portNumber: string, authenticationState: string)

  const NoSerialMessage := "authentication.events: Cannot find onu serial number for this event"

  /** get_onu_sn: the step's own copy of the helper, with its own message. */
  function GetOnuSn(topology: Helpers.Topology, event: Event): (r: Result<string, Failure>)
    ensures r.Ok? <==> Helpers.GetOnuSn(topology, event.deviceId, event.portNumber).Ok?
    ensures r.Ok? ==> r.value == Helpers.GetOnuSn(topology, event.deviceId, event.portNumber).value
    ensures r.Err? ==> r.error == Raised(NoSerialMessage)
  {
    match Helpers.GetOnuSn(topology, event.deviceId, event.portNumber)
    case Ok(serialNumber) => Ok(serialNumber)
    case Err(_) => Err(Raised(NoSerialMessage))
  }

  /** get_si_by_sn: the same lookup as the helper's, but its handler for a
      missing instance refers to a name that is not bound there, so it fails
      with that NameError instead of its intended message. */
  function GetSiBySn(instances: seq<ServiceInstance>, serialNumber: string): (r: Result<nat, Failure>)
    ensures r.Ok? <==> Helpers.GetSiBySn(instances, serialNumber).Ok?
    ensures r.Ok? ==> r.value == Helpers.GetSiBySn(instances, serialNumber).value
    ensures r.Err? ==> r.error == UndefinedName("value")
  {
    match Helpers.GetSiBySn(instances, serialNumber)
    case Ok(id) => Ok(id)
    case Err(_) => Err(UndefinedName("value"))
  }

  /** The instance after the event: the new authentication state, and the
      sync step switched off. */
  function Authenticated(si: ServiceInstance, event: Event): (r: ServiceInstance)
    ensures r.authenticationState == event.authenticationState && r.noSync
    ensures r.serialNumber == si.serialNumber && r.valid == si.valid && r.onuState == si.onuState
  {
    si.(authenticationState := event.authenticationState, noSync := true)
  }

  /** The fields the step persists. */
  const AuthFields: set<Field> := {AuthenticationState, NoSync}

  /** process_event; the result is the position of the updated instance. */
  method ProcessEvent(db: ObjectStore, topology: Helpers.Topology, event: Event) returns (r: Result<nat, Failure>)
    modifies db
    ensures GetOnuSn(topology, event).Err? ==> r == Err(GetOnuSn(topology, event).error)
    ensures GetOnuSn(topology, event).Ok? ==> (
              var found := GetSiBySn(old(db.instances), GetOnuSn(topology, event).value);
              (found.Err? ==> r == Err(found.error)) && (found.Ok? ==> r == Ok(found.value)))
    ensures r.Err? ==> db.instances == old(db.instances) && db.writes == old(db.writes)
    ensures r.Ok? ==> (r.value < |old(db.instances)| &&
                       db.instances == old(db.instances)[r.value := Authenticated(old(db.instances[r.value]), event)] &&
                       db.writes == old(db.writes) + [InstanceSaved(r.value, AuthFields)])
    ensures db.entries == old(db.entries) && db.onus == old(db.onus) && db.subscribers == old(db.subscribers)
  {
    var onuSn := GetOnuSn(topology, event);
    if onuSn.Err? {
      r := Err(onuSn.error);
      return;
    }
    var found := GetSiBySn(db.instances, onuSn.value);
    if found.Err? {
      r := Err(found.error);
      return;
    }
    var id := found.value;
    var si := db.instances[id];
    si := si.(authenticationState := event.authenticationState);
    si := si.(noSync := true);
    db.instances := db.instances[id := si];
    db.writes := db.writes + [InstanceSaved(id, {AuthenticationState, NoSync})];
    r := Ok(id);
  }

  /** The instance updated is the first one with exactly the serial number the
      OLT reports for the event's port. */
  lemma UpdatesInstanceBehindPort(instances: seq<ServiceInstance>, topology: Helpers.Topology, event: Event)
    requires GetOnuSn(topology, event).Ok? && GetSiBySn(instances, GetOnuSn(topology, event).value).Ok?
    ensures var id := GetSiBySn(instances, GetOnuSn(topology, event).value).value;
            id < |instances| &&
            instances[id].serialNumber == topology[(event.deviceId, event.portNumber)] &&
            forall j :: 0 <= j < id ==> instances[j].serialNumber != instances[id].serialNumber
  {
  }

  /** Saving the two fields loses nothing: every field the event changes is
      among them, whatever the instance. */
  lemma SavedFieldsCoverChange(si: ServiceInstance, event: Event)
    ensures ChangedFields(si, Authenticated(si, event)) <= AuthFields
    ensures ChangedFields(si, Authenticated(si, event)) == {} <==>
            si.authenticationState == event.authenticationState && si.noSync
  {
  }

  /** Replaying an event leaves the instance as the first delivery did. */
  lemma ReplayChangesNothing(si: ServiceInstance, event: Event)
    ensures ChangedFields(Authenticated(si, event), Authenticated(Authenticated(si, event), event)) == {}
  {
  }
}
