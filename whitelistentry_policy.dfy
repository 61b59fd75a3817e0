/** The model policy of AttWorkflowDriverWhiteListEntry
    (xos/synchronizer/model_policies/model_policy_att_workflow_driver_whitelistentry.py).
    Creating or updating an entry marks every instance with that serial number
    (in any case, of any owner) valid; deleting it marks the instances with
    exactly that serial number and owner invalid. */
module WhitelistEntryPolicy {
  import opened Common
  import opened Records
  import opened Revalidation

  method HandleCreate(db: ObjectStore, entry: nat)
    requires entry < |db.entries|
    modifies db
    ensures db.instances == Revalidated(old(db.instances), ValidateSerial(old(db.entries[entry].serialNumber)))
    ensures db.writes == old(db.writes) + Saves(old(db.instances), ValidateSerial(old(db.entries[entry].serialNumber)))
                         + [EntrySaved(entry, {BackendNeedDeletePolicy})]
    ensures db.entries == old(db.entries)[entry := old(db.entries[entry]).(backendNeedDeletePolicy := true)]
    ensures db.onus == old(db.onus) && db.subscribers == old(db.subscribers)
  {
    HandleUpdate(db, entry);
  }

  method HandleUpdate(db: ObjectStore, entry: nat)
    requires entry < |db.entries|
    modifies db
    ensures db.instances == Revalidated(old(db.instances), ValidateSerial(old(db.entries[entry].serialNumber)))
    ensures db.writes == old(db.writes) + Saves(old(db.instances), ValidateSerial(old(db.entries[entry].serialNumber)))
                         + [EntrySaved(entry, {BackendNeedDeletePolicy})]
    ensures db.entries == old(db.entries)[entry := old(db.entries[entry]).(backendNeedDeletePolicy := true)]
    ensures db.onus == old(db.onus) && db.subscribers == old(db.subscribers)
  {
    var whitelist := db.entries[entry];
    ValidateMatching(db, whitelist.serialNumber);
    db.entries := db.entries[entry := whitelist.(backendNeedDeletePolicy := true)];
    db.writes := db.writes + [EntrySaved(entry, {BackendNeedDeletePolicy})];
  }

  /** The loop of handle_update over every instance. */
  method ValidateMatching(db: ObjectStore, serialNumber: string)
    modifies db
    ensures db.instances == Revalidated(old(db.instances), ValidateSerial(serialNumber))
    ensures db.writes == old(db.writes) + Saves(old(db.instances), ValidateSerial(serialNumber))
    ensures db.entries == old(db.entries) && db.onus == old(db.onus) && db.subscribers == old(db.subscribers)
  {
    ghost var rule := ValidateSerial(serialNumber);
    ghost var sis := db.instances;
    var i := 0;
    while i < |db.instances|
      invariant 0 <= i <= |db.instances| == |sis|
      invariant forall k :: 0 <= k < i ==> db.instances[k] == Apply(sis[k], NewValidity(rule, sis[k]))
      invariant forall k :: i <= k < |sis| ==> db.instances[k] == sis[k]
      invariant db.writes == old(db.writes) + Saves(sis[..i], rule)
      invariant db.entries == old(db.entries) && db.onus == old(db.onus) && db.subscribers == old(db.subscribers)
    {
      PassStep(sis, rule, i);
      ValidateOne(db, i, serialNumber);
      i := i + 1;
    }
    assert sis[..i] == sis;
    assert db.instances == Revalidated(sis, rule);
  }

  /** One iteration of that loop: an instance with a different serial number
      is not concerned; one that matches and is not valid yet becomes valid and is saved. */
  method ValidateOne(db: ObjectStore, i: nat, serialNumber: string)
    requires i < |db.instances|
    modifies db
    ensures db.instances == old(db.instances)[i := Apply(old(db.instances[i]), NewValidity(ValidateSerial(serialNumber), old(db.instances[i])))]
    ensures db.writes == old(db.writes) + SaveOf(old(db.instances[i]), i, ValidateSerial(serialNumber))
    ensures db.entries == old(db.entries) && db.onus == old(db.onus) && db.subscribers == old(db.subscribers)
  {
    var si := db.instances[i];
    if Lower(si.serialNumber) != Lower(serialNumber) {
      return;
    }
    if si.valid != "valid" {
      si := si.(valid := "valid");
      db.instances := db.instances[i := si];
      db.writes := db.writes + [InstanceSaved(i, {Valid, NoSync})];
    }
  }

  /** handle_delete. An entry without an owner fails the assertion before anything is written. */
  method HandleDelete(db: ObjectStore, entry: nat) returns (r: Result<(), Failure>)
    requires entry < |db.entries|
    modifies db
    ensures r.Err? <==> old(db.entries[entry].owner).None?
    ensures r.Err? ==> r.error == AssertionFailed
    ensures r.Err? ==> db.instances == old(db.instances) && db.entries == old(db.entries) && db.writes == old(db.writes)
    ensures r.Ok? ==> (db.instances == Revalidated(old(db.instances),
                         InvalidateSerialOfOwner(old(db.entries[entry].serialNumber), old(db.entries[entry].owner.value))))
    ensures r.Ok? ==> (db.writes == old(db.writes) + Saves(old(db.instances),
                         InvalidateSerialOfOwner(old(db.entries[entry].serialNumber), old(db.entries[entry].owner.value)))
                       + [EntrySaved(entry, {BackendNeedReap})])
    ensures r.Ok? ==> db.entries == old(db.entries)[entry := old(db.entries[entry]).(backendNeedReap := true)]
    ensures db.onus == old(db.onus) && db.subscribers == old(db.subscribers)
  {
    var whitelist := db.entries[entry];
    if whitelist.owner.None? {
      r := Err(AssertionFailed);
      return;
    }
    InvalidateMatching(db, whitelist.serialNumber, whitelist.owner.value);
    db.entries := db.entries[entry := whitelist.(backendNeedReap := true)];
    db.writes := db.writes + [EntrySaved(entry, {BackendNeedReap})];
    r := Ok(());
  }

  /** The loop of handle_delete over the instances the ORM filter on serial
      number and owner id returns; the filter is folded into each iteration. */
  method InvalidateMatching(db: ObjectStore, serialNumber: string, ownerId: int)
    modifies db
    ensures db.instances == Revalidated(old(db.instances), InvalidateSerialOfOwner(serialNumber, ownerId))
    ensures db.writes == old(db.writes) + Saves(old(db.instances), InvalidateSerialOfOwner(serialNumber, ownerId))
    ensures db.entries == old(db.entries) && db.onus == old(db.onus) && db.subscribers == old(db.subscribers)
  {
    ghost var rule := InvalidateSerialOfOwner(serialNumber, ownerId);
    ghost var sis := db.instances;
    var i := 0;
    while i < |db.instances|
      invariant 0 <= i <= |db.instances| == |sis|
      invariant forall k :: 0 <= k < i ==> db.instances[k] == Apply(sis[k], NewValidity(rule, sis[k]))
      invariant forall k :: i <= k < |sis| ==> db.instances[k] == sis[k]
      invariant db.writes == old(db.writes) + Saves(sis[..i], rule)
      invariant db.entries == old(db.entries) && db.onus == old(db.onus) && db.subscribers == old(db.subscribers)
    {
      PassStep(sis, rule, i);
      InvalidateOne(db, i, serialNumber, ownerId);
      i := i + 1;
    }
    assert sis[..i] == sis;
    assert db.instances == Revalidated(sis, rule);
  }

  /** One iteration of that loop: an instance the filter selects that is not
      invalid yet becomes invalid and is saved. */
  method InvalidateOne(db: ObjectStore, i: nat, serialNumber: string, ownerId: int)
    requires i < |db.instances|
    modifies db
    ensures db.instances == old(db.instances)[i := Apply(old(db.instances[i]),
                              NewValidity(InvalidateSerialOfOwner(serialNumber, ownerId), old(db.instances[i])))]
    ensures db.writes == old(db.writes) + SaveOf(old(db.instances[i]), i, InvalidateSerialOfOwner(serialNumber, ownerId))
    ensures db.entries == old(db.entries) && db.onus == old(db.onus) && db.subscribers == old(db.subscribers)
  {
    var si := db.instances[i];
    if si.serialNumber != serialNumber || si.ownerId != ownerId {
      return;
    }
    if si.valid != "invalid" {
      si := si.(valid := "invalid");
      db.instances := db.instances[i := si];
      db.writes := db.writes + [InstanceSaved(i, {Valid, NoSync})];
    }
  }

  /** After an update: the instances with the entry's serial number in any case
      are valid and only their `valid` changed; the others are untouched. Only
      instances that were not yet valid are saved. */
  lemma UpdateValidatesMatching(instances: seq<ServiceInstance>, serialNumber: string, i: int)
    requires 0 <= i < |instances|
    ensures var after := Revalidated(instances, ValidateSerial(serialNumber));
            if EqualsIgnoreCase(instances[i].serialNumber, serialNumber)
            then after[i] == instances[i].(valid := "valid")
            else after[i] == instances[i]
    ensures InstanceSaved(i, SavedFields) in Saves(instances, ValidateSerial(serialNumber)) <==>
              EqualsIgnoreCase(instances[i].serialNumber, serialNumber) && instances[i].valid != "valid"
  {
    SavedExactlyWhenDecided(instances, ValidateSerial(serialNumber), i);
  }

  /** After a delete: the instances of the owner with exactly the entry's serial
      number are invalid; the others are untouched. Only instances that were not
      yet invalid are saved. */
  lemma DeleteInvalidatesMatching(instances: seq<ServiceInstance>, serialNumber: string, ownerId: int, i: int)
    requires 0 <= i < |instances|
    ensures var after := Revalidated(instances, InvalidateSerialOfOwner(serialNumber, ownerId));
            if instances[i].serialNumber == serialNumber && instances[i].ownerId == ownerId
            then after[i] == instances[i].(valid := "invalid")
            else after[i] == instances[i]
    ensures InstanceSaved(i, SavedFields) in Saves(instances, InvalidateSerialOfOwner(serialNumber, ownerId)) <==>
              instances[i].serialNumber == serialNumber && instances[i].ownerId == ownerId && instances[i].valid != "invalid"
  {
    SavedExactlyWhenDecided(instances, InvalidateSerialOfOwner(serialNumber, ownerId), i);
  }

  /** Replaying an update or a delete changes and saves nothing more. */
  lemma UpdateAndDeleteAreIdempotent(instances: seq<ServiceInstance>, serialNumber: string, ownerId: int)
    ensures Saves(Revalidated(instances, ValidateSerial(serialNumber)), ValidateSerial(serialNumber)) == []
    ensures Saves(Revalidated(instances, InvalidateSerialOfOwner(serialNumber, ownerId)),
                  InvalidateSerialOfOwner(serialNumber, ownerId)) == []
  {
    SecondPassSavesNothing(instances, ValidateSerial(serialNumber));
    SecondPassSavesNothing(instances, InvalidateSerialOfOwner(serialNumber, ownerId));
  }

  /** Update and delete do not select the same instances: an entry "BRCM1234"
      of owner 1 validates an instance "brcm1234" of owner 2, but deleting the
      entry leaves that instance alone. */
  lemma UpdateAndDeleteMatchDifferently(si: ServiceInstance)
    requires si.serialNumber == "brcm1234" && si.ownerId == 2 && si.valid == "awaiting"
    ensures NewValidity(ValidateSerial("BRCM1234"), si) == Some("valid")
    ensures NewValidity(InvalidateSerialOfOwner("BRCM1234", 1), si) == None
  {
  }
}
