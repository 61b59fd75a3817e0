/** ONUEventStep (xos/synchronizer/event_steps/onu_event.py): an activated ONU
    gets its service instance found or created, attached to the event's port
    and datapath and marked ENABLED, with sync re-enabled; a disabled ONU or an
    unknown status changes nothing. */
module OnuEvent {
  import opened Common
  import opened Records
  import WorkflowService

  /** The decoded payload of an `onu.events` message. */
  datatype Event = Event(status: string, serialNumber: string, ofDpid: string, deviceId: string, portNumber: string)

  /** The instance after activation on UNI port `port`. */
  function Activated(si: ServiceInstance, event: Event, port: int): (r: ServiceInstance)
    ensures r.onuState == "ENABLED" && !r.noSync && r.uniPortId == port && r.ofDpid == event.deviceId
    ensures r.serialNumber == si.serialNumber && r.valid == si.valid && r.authenticationState == si.authenticationState
  {
    si.(noSync := false, uniPortId := port, ofDpid := event.deviceId, onuState := "ENABLED")
  }

  /** The fields an activation may change. */
  const AttachmentFields: set<Field> := {NoSync, UniPortId, OfDpid, OnuState}

  /** process_event. The result names the instance written, None when the
      status calls for no action. The instance is looked up as the wrapper
      does, but saved only once, with its changed fields, at the end. */
  method ProcessEvent(db: ObjectStore, event: Event, template: ServiceInstance) returns (r: Result<Option<nat>, Failure>)
    modifies db
    ensures event.status != "activated" ==> r == Ok(None)
    ensures event.status == "activated" ==> (
              ParseLong(event.portNumber).Err? <==> r.Err?)
    ensures r.Err? ==> r.error == NotANumber(event.portNumber)
    ensures (r.Err? || r == Ok(None)) ==> db.instances == old(db.instances) && db.writes == old(db.writes)
    ensures event.status == "activated" && r.Ok? ==> (
              var found := WorkflowService.Find(old(db.instances), event.serialNumber);
              var port := ParseLong(event.portNumber).value;
              if found.Some? then
                var before := old(db.instances[found.value]);
                r == Ok(Some(found.value)) &&
                db.instances == old(db.instances)[found.value := Activated(before, event, port)] &&
                db.writes == old(db.writes) + (if ChangedFields(before, Activated(before, event, port)) == {} then []
                                               else [InstanceSaved(found.value, ChangedFields(before, Activated(before, event, port)))])
              else
                r == Ok(Some(|old(db.instances)|)) &&
                db.instances == old(db.instances) +
                                [Activated(WorkflowService.NewInstance(template, event.serialNumber, event.ofDpid), event, port)] &&
                db.writes == old(db.writes) + [InstanceSaved(|old(db.instances)|, AllFields)])
    ensures db.entries == old(db.entries) && db.onus == old(db.onus) && db.subscribers == old(db.subscribers)
  {
    if event.status == "activated" {
      var found := WorkflowService.Find(db.instances, event.serialNumber);
      var si := if found.Some? then db.instances[found.value]
                else WorkflowService.NewInstance(template, event.serialNumber, event.ofDpid);
      si := si.(noSync := false);
      var port := ParseLong(event.portNumber);
      if port.Err? {
        r := Err(port.error);
        return;
      }
      si := si.(uniPortId := port.value);
      si := si.(ofDpid := event.deviceId);
      si := si.(onuState := "ENABLED");
      if found.Some? {
        db.SaveChangedFields(found.value, si);
        r := Ok(Some(found.value));
      } else {
        var id := db.Create(si);
        r := Ok(Some(id));
      }
    } else if event.status == "disabled" {
      // a disabled ONU: no action
      r := Ok(None);
    } else {
      // an unknown status is only reported
      r := Ok(None);
    }
  }

  /** An activation changes only the attachment fields and the sync flag, and
      each of them exactly when its new value differs. */
  lemma ActivationChangesAttachmentOnly(si: ServiceInstance, event: Event, port: int)
    ensures ChangedFields(si, Activated(si, event, port)) <= AttachmentFields
    ensures OnuState in ChangedFields(si, Activated(si, event, port)) <==> si.onuState != "ENABLED"
    ensures UniPortId in ChangedFields(si, Activated(si, event, port)) <==> si.uniPortId != port
    ensures OfDpid in ChangedFields(si, Activated(si, event, port)) <==> si.ofDpid != event.deviceId
    ensures NoSync in ChangedFields(si, Activated(si, event, port)) <==> si.noSync
  {
  }

  /** A repeated activation saves nothing the second time. */
  lemma RepeatedActivationSavesNothing(si: ServiceInstance, event: Event, port: int)
    ensures ChangedFields(Activated(si, event, port), Activated(Activated(si, event, port), event, port)) == {}
  {
  }

  /** The UNI port recorded is the number the event's port string spells:
      a rendered port number, with or without whitespace around it, is read
      back as that number. */
  lemma {:induction false} UniPortRoundTrip(si: ServiceInstance, event: Event, lead: string, n: nat, trail: string)
    requires AllSpace(lead) && AllSpace(trail) && event.portNumber == lead + Decimal(n) + trail
    ensures ParseLong(event.portNumber) == Ok(n)
    ensures Activated(si, event, ParseLong(event.portNumber).value).uniPortId == n
  {
    var digits := Decimal(n);
    assert IsDigit(digits[0]) && IsDigit(digits[|digits| - 1]);
    ParseLongDecimal(n);
    ParseLongIgnoresPadding(lead, digits, trail);
  }
}
