/** The records the workflow driver reads and writes, and the object store
    that holds them. A save is recorded in the store's write log as the set
    of fields it persisted; timestamps and the other ORM bookkeeping are not
    part of the model. */
module Records {
  import opened Common

  /** An AttWorkflowDriverServiceInstance: one per ONU. `ownerId` is the id of
      the owning service's leaf model. */
  datatype ServiceInstance = ServiceInstance(
    serialNumber: string,
    ownerId: int,
    ofDpid: string,
    uniPortId: int,
    onuState: string,             // AWAITING, ENABLED, DISABLED
    authenticationState: string,  // AWAITING, REQUESTED, STARTED, APPROVED, DENIED
    dhcpState: string,            // copied from DHCP events
    ipAddress: string,
    macAddress: string,
    valid: string,                // awaiting, valid, invalid
    statusMessage: string,
    noSync: bool)

  /** The fields of a service instance, as named in `save(update_fields=...)`. */
  datatype Field =
    | SerialNumber | OwnerId | OfDpid | UniPortId | OnuState | AuthenticationState
    | DhcpState | IpAddress | MacAddress | Valid | StatusMessage | NoSync

  const AllFields: set<Field> :=
    {SerialNumber, OwnerId, OfDpid, UniPortId, OnuState, AuthenticationState,
     DhcpState, IpAddress, MacAddress, Valid, StatusMessage, NoSync}

  /** Whether field `f` holds different values in `a` and `b`. */
  predicate Differs(f: Field, a: ServiceInstance, b: ServiceInstance) {
    match f
    case SerialNumber => a.serialNumber != b.serialNumber
    case OwnerId => a.ownerId != b.ownerId
    case OfDpid => a.ofDpid != b.ofDpid
    case UniPortId => a.uniPortId != b.uniPortId
    case OnuState => a.onuState != b.onuState
    case AuthenticationState => a.authenticationState != b.authenticationState
    case DhcpState => a.dhcpState != b.dhcpState
    case IpAddress => a.ipAddress != b.ipAddress
    case MacAddress => a.macAddress != b.macAddress
    case Valid => a.valid != b.valid
    case StatusMessage => a.statusMessage != b.statusMessage
    case NoSync => a.noSync != b.noSync
  }

  /** The fields `save_changed_fields` persists: those whose value differs.
      Nothing is persisted exactly when nothing changed. */
  function ChangedFields(before: ServiceInstance, after: ServiceInstance): (r: set<Field>)
    ensures forall f :: f in r <==> Differs(f, before, after)
    ensures r == {} <==> before == after
  {
    var r := set f | f in AllFields && Differs(f, before, after);
    assert forall f :: Differs(f, before, after) ==> f in AllFields;
    assert r == {} ==> before == after by {
      if r == {} {
        forall f | f in AllFields ensures !Differs(f, before, after) {
          assert f !in r;
        }
      }
    }
    r
  }

  /** An AttWorkflowDriverWhiteListEntry. `owner` is None when the entry has no owner. */
  datatype WhitelistEntry = WhitelistEntry(
    serialNumber: string,
    owner: Option<int>,
    ponPortId: int,
    deviceId: string,
    backendNeedDeletePolicy: bool,
    backendNeedReap: bool)

  datatype EntryField = BackendNeedDeletePolicy | BackendNeedReap

  /** The part of an ONUDevice the driver reads or writes: its admin state
      and the port number of the PON port it is attached to. */
  datatype OnuDevice = OnuDevice(adminState: string, ponPortNo: int)

  /** An RCORDSubscriber: the serial number of its ONU and its status. */
  datatype Subscriber = Subscriber(onuDevice: string, status: string)

  /** One save of one record. */
  datatype Write =
    | InstanceSaved(id: nat, fields: set<Field>)
    | OnuSaved(serialNumber: string)
    | SubscriberSaved(index: nat)
    | EntrySaved(index: nat, entryFields: set<EntryField>)

  /** The object store the synchronizer's policies and steps share. */
  class ObjectStore {
    var instances: seq<ServiceInstance>
    var entries: seq<WhitelistEntry>
    var onus: map<string, OnuDevice>
    var subscribers: seq<Subscriber>
    var writes: seq<Write>

    /** `save_changed_fields()` of stored instance `id` whose in-memory copy is
        now `si`: the fields that differ are persisted, and nothing is written
        when nothing differs. */
    method SaveChangedFields(id: nat, si: ServiceInstance)
      requires id < |instances|
      modifies this
      ensures instances == old(instances)[id := si]
      ensures writes == old(writes) + (if ChangedFields(old(instances[id]), si) == {} then []
                                       else [InstanceSaved(id, ChangedFields(old(instances[id]), si))])
      ensures entries == old(entries) && onus == old(onus) && subscribers == old(subscribers)
    {
      var changed := ChangedFields(instances[id], si);
      if changed != {} {
        instances := instances[id := si];
        writes := writes + [InstanceSaved(id, changed)];
      }
    }

    /** The first save of a new instance: it is stored with all its fields. */
    method Create(si: ServiceInstance) returns (id: nat)
      modifies this
      ensures id == |old(instances)| && instances == old(instances) + [si]
      ensures writes == old(writes) + [InstanceSaved(id, AllFields)]
      ensures entries == old(entries) && onus == old(onus) && subscribers == old(subscribers)
    {
      id := |instances|;
      instances := instances + [si];
      writes := writes + [InstanceSaved(id, AllFields)];
    }
  }
}
