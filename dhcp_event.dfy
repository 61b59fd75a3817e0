/** SubscriberDhcpEventStep (xos/synchronizer/event_steps/dhcp_event.py):
    a DHCP event names an OpenFlow port; the service instance of the ONU
    behind it records the DHCP message type and the addresses the event
    carries, and only what changed is saved. No instance is created here. */
module DhcpEvent {
  import opened Common
  import opened Records
  import Helpers

  /** The decoded payload of a `dhcp.events` message. */
  datatype Event = Event(deviceId: string, portNumber: string, messageType: string, ipAddress: string, macAddress: string)

  /** The instance after the event: the three values are copied verbatim. */
  function WithLease(si: ServiceInstance, event: Event): (r: ServiceInstance)
    ensures r.dhcpState == event.messageType && r.ipAddress == event.ipAddress && r.macAddress == event.macAddress
    ensures r.serialNumber == si.serialNumber && r.valid == si.valid && r.noSync == si.noSync
  {
    si.(dhcpState := event.messageType, ipAddress := event.ipAddress, macAddress := event.macAddress)
  }

  /** process_event; the result is the position of the updated instance. */
  method ProcessEvent(db: ObjectStore, topology: Helpers.Topology, event: Event) returns (r: Result<nat, Failure>)
    modifies db
    ensures Helpers.GetOnuSn(topology, event.deviceId, event.portNumber).Err? ==>
              r == Err(Helpers.GetOnuSn(topology, event.deviceId, event.portNumber).error)
    ensures Helpers.GetOnuSn(topology, event.deviceId, event.portNumber).Ok? ==> (
              var found := Helpers.GetSiBySn(old(db.instances), Helpers.GetOnuSn(topology, event.deviceId, event.portNumber).value);
              (found.Err? ==> r == Err(found.error)) && (found.Ok? ==> r == Ok(found.value)))
    ensures r.Err? ==> db.instances == old(db.instances) && db.writes == old(db.writes)
    ensures r.Ok? ==> (
              var before := old(db.instances[r.value]);
              db.instances == old(db.instances)[r.value := WithLease(before, event)] &&
              db.writes == old(db.writes) + (if ChangedFields(before, WithLease(before, event)) == {} then []
                                             else [InstanceSaved(r.value, ChangedFields(before, WithLease(before, event)))]))
    ensures db.entries == old(db.entries) && db.onus == old(db.onus) && db.subscribers == old(db.subscribers)
  {
    var onuSn := Helpers.GetOnuSn(topology, event.deviceId, event.portNumber);
    if onuSn.Err? {
      r := Err(onuSn.error);
      return;
    }
    var found := Helpers.GetSiBySn(db.instances, onuSn.value);
    if found.Err? {
      r := Err(found.error);
      return;
    }
    var id := found.value;
    var si := db.instances[id];
    si := si.(dhcpState := event.messageType);
    si := si.(ipAddress := event.ipAddress);
    si := si.(macAddress := event.macAddress);
    db.SaveChangedFields(id, si);
    r := Ok(id);
  }

  /** What is saved is exactly the part of the three DHCP fields that changed;
      nothing else of the instance is touched. */
  lemma SavesOnlyChangedLeaseFields(si: ServiceInstance, event: Event)
    ensures ChangedFields(si, WithLease(si, event)) <= {DhcpState, IpAddress, MacAddress}
    ensures DhcpState in ChangedFields(si, WithLease(si, event)) <==> si.dhcpState != event.messageType
    ensures IpAddress in ChangedFields(si, WithLease(si, event)) <==> si.ipAddress != event.ipAddress
    ensures MacAddress in ChangedFields(si, WithLease(si, event)) <==> si.macAddress != event.macAddress
  {
  }

  /** A repeated event saves nothing the second time. */
  lemma RepeatedEventSavesNothing(si: ServiceInstance, event: Event)
    ensures ChangedFields(WithLease(si, event), WithLease(WithLease(si, event), event)) == {}
  {
  }
}
