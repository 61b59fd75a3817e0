/** SyncAttWorkflowDriverServiceInstance
    (xos/synchronizer/steps/sync_att_workflow_driver_service_instance.py):
    the sync step checks an instance against the "external OSS", which here
    is the whitelist itself, records the outcome in `valid` and stops itself
    from running again on that instance. */
module SyncServiceInstance {
  import opened Common
  import opened Records
  import Helpers

  /** The entries the ORM filter on owner id and serial number returns; both
      comparisons are exact. */
  function OwnedWithSerial(entries: seq<WhitelistEntry>, ownerId: int, serialNumber: string): (r: seq<WhitelistEntry>)
    ensures forall e :: e in r <==> e in entries && e.owner == Some(ownerId) && e.serialNumber == serialNumber
  {
    if entries == [] then []
    else
      var rest := OwnedWithSerial(entries[1..], ownerId, serialNumber);
      assert forall e :: e in entries ==> e == entries[0] || e in entries[1..];
      if entries[0].owner == Some(ownerId) && entries[0].serialNumber == serialNumber then [entries[0]] + rest else rest
  }

  /** validate_in_external_oss: true when the owner's whitelist has an entry
      with exactly this serial number. */
  function ValidateInExternalOss(si: ServiceInstance, entries: seq<WhitelistEntry>): (r: bool)
    ensures r <==> exists e :: e in entries && e.owner == Some(si.ownerId) && e.serialNumber == si.serialNumber
  {
    var matching := OwnedWithSerial(entries, si.ownerId, si.serialNumber);
    assert matching != [] ==> matching[0] in matching;
    |matching| > 0
  }

  /** The instance after sync_record. */
  function Synced(si: ServiceInstance, entries: seq<WhitelistEntry>): (r: ServiceInstance)
    ensures r.noSync
    ensures r.valid == "valid" <==> ValidateInExternalOss(si, entries)
    ensures r.valid == "invalid" <==> !ValidateInExternalOss(si, entries)
  {
    si.(valid := if ValidateInExternalOss(si, entries) then "valid" else "invalid", noSync := true)
  }

  /** sync_record: `valid` follows the OSS answer, `no_sync` is raised, and
      exactly those two fields are saved. */
  method SyncRecord(db: ObjectStore, id: nat)
    requires id < |db.instances|
    modifies db
    ensures db.instances == old(db.instances)[id := Synced(old(db.instances[id]), old(db.entries))]
    ensures db.writes == old(db.writes) + [InstanceSaved(id, {Valid, NoSync})]
    ensures db.entries == old(db.entries) && db.onus == old(db.onus) && db.subscribers == old(db.subscribers)
  {
    var o := db.instances[id];
    if !ValidateInExternalOss(o, db.entries) {
      o := o.(valid := "invalid");
    } else {
      o := o.(valid := "valid");
    }
    o := o.(noSync := true);
    db.instances := db.instances[id := o];
    db.writes := db.writes + [InstanceSaved(id, {Valid, NoSync})];
  }

  /** The two fields saved are the only ones sync_record can change. */
  lemma SavedFieldsCoverChange(si: ServiceInstance, entries: seq<WhitelistEntry>)
    ensures ChangedFields(si, Synced(si, entries)) <= {Valid, NoSync}
  {
  }

  /** An instance the OSS accepts is one the whitelist validator also finds listed. */
  lemma OssAcceptedIsListed(si: ServiceInstance, entries: seq<WhitelistEntry>, onus: map<string, OnuDevice>)
    requires ValidateInExternalOss(si, entries)
    ensures Helpers.ValidateOnu(si, entries, onus) != Ok(Helpers.Verdict(false, Helpers.NotInWhitelist))
  {
  }

  /** The converse fails: the OSS check is case-sensitive where the validator
      is not, so a lower-case whitelist entry validates "BRCM1234" in
      `validate_onu` while the sync step marks the same instance invalid. */
  lemma OssIsCaseSensitive(si: ServiceInstance, e: WhitelistEntry, onus: map<string, OnuDevice>)
    requires si.serialNumber == "BRCM1234" && e.serialNumber == "brcm1234" && e.owner == Some(si.ownerId)
    requires e.deviceId == si.ofDpid && si.serialNumber in onus && onus[si.serialNumber].ponPortNo == e.ponPortId
    ensures Helpers.ValidateOnu(si, [e], onus) == Ok(Helpers.Verdict(true, Helpers.Validated))
    ensures !ValidateInExternalOss(si, [e])
  {
  }
}
