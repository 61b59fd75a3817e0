/** ORMWrapperAttWorkflowService.validate_onu
    (xos/synchronizer/models/convenience/attworkflowdriverservice.py): find the
    service instance of an ONU by serial number, or create one, and save it.
    A found instance only gets its `no_sync` cleared (its datapath is not
    refreshed); a new one takes the serial number and datapath of the event. */
module WorkflowService {
  import opened Common
  import opened Records
  import Helpers

  /** The keys of the event the wrapper reads. */
  datatype OnuNotice = OnuNotice(serialNumber: string, ofDpid: string)

  /** A new instance: the model's default field values (`template`) with the
      serial number and datapath filled in. */
  function NewInstance(template: ServiceInstance, serialNumber: string, ofDpid: string): (r: ServiceInstance)
    ensures r.serialNumber == serialNumber && r.ofDpid == ofDpid
    ensures r == template.(serialNumber := r.serialNumber, ofDpid := r.ofDpid)
  {
    template.(serialNumber := serialNumber, ofDpid := ofDpid)
  }

  /** The lookup half: the position of the instance with this serial number,
      or None when a new one has to be made. */
  function Find(instances: seq<ServiceInstance>, serialNumber: string): (r: Option<nat>)
    ensures r.Some? ==> r.value < |instances| && instances[r.value].serialNumber == serialNumber
    ensures r.Some? ==> forall j :: 0 <= j < r.value ==> instances[j].serialNumber != serialNumber
    ensures r.None? <==> forall j :: 0 <= j < |instances| ==> instances[j].serialNumber != serialNumber
  {
    match Helpers.GetSiBySn(instances, serialNumber)
    case Ok(id) => Some(id)
    case Err(_) => None
  }

  /** validate_onu; the result is the position of the saved instance. */
  method ValidateOnu(db: ObjectStore, event: OnuNotice, template: ServiceInstance) returns (id: nat)
    modifies db
    ensures Find(old(db.instances), event.serialNumber).Some? ==> (
              id == Find(old(db.instances), event.serialNumber).value &&
              db.instances == old(db.instances)[id := old(db.instances[id]).(noSync := false)])
    ensures Find(old(db.instances), event.serialNumber).None? ==> (
              id == |old(db.instances)| &&
              db.instances == old(db.instances) + [NewInstance(template, event.serialNumber, event.ofDpid)])
    ensures db.writes == old(db.writes) + [InstanceSaved(id, AllFields)]
    ensures db.entries == old(db.entries) && db.onus == old(db.onus) && db.subscribers == old(db.subscribers)
  {
    var found := Find(db.instances, event.serialNumber);
    if found.Some? {
      id := found.value;
      var si := db.instances[id];
      si := si.(noSync := false);
      db.instances := db.instances[id := si];
      db.writes := db.writes + [InstanceSaved(id, AllFields)];
    } else {
      var si := NewInstance(template, event.serialNumber, event.ofDpid);
      id := db.Create(si);
    }
  }

  /** After the wrapper has run once, the instance exists, so a second run
      finds the same instance instead of creating another. */
  lemma FoundAfterCreate(instances: seq<ServiceInstance>, template: ServiceInstance, event: OnuNotice)
    requires Find(instances, event.serialNumber).None?
    ensures Find(instances + [NewInstance(template, event.serialNumber, event.ofDpid)], event.serialNumber)
            == Some(|instances|)
  {
    var after := instances + [NewInstance(template, event.serialNumber, event.ofDpid)];
    assert forall j :: 0 <= j < |instances| ==> after[j] == instances[j];
    assert after[|instances|].serialNumber == event.serialNumber;
  }

  /** Clearing `no_sync` keeps the instance findable at the same position. */
  lemma FoundStaysFound(instances: seq<ServiceInstance>, serialNumber: string)
    requires Find(instances, serialNumber).Some?
    ensures var id := Find(instances, serialNumber).value;
            Find(instances[id := instances[id].(noSync := false)], serialNumber) == Some(id)
  {
    var id := Find(instances, serialNumber).value;
    var after := instances[id := instances[id].(noSync := false)];
    assert forall j :: 0 <= j < |instances| ==> after[j].serialNumber == instances[j].serialNumber;
  }
}
