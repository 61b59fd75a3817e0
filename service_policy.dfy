/** The model policy of AttWorkflowDriverService
    (xos/synchronizer/model_policies/model_policy_att_workflow_driver_service.py):
    when the service changes, every service instance is re-synchronised with
    the service's whitelist. An instance whose lower-cased serial number is on
    the lower-cased whitelist becomes valid, every other one invalid; an
    instance that already has the right value is not saved. */
module ServicePolicy {
  import opened Common
  import opened Records
  import opened Revalidation
  import Helpers

  /** The lower-cased serial numbers of the service's whitelist entries, in store order. */
  function Whitelist(entries: seq<WhitelistEntry>, serviceId: int): (r: seq<string>)
    ensures forall s :: s in r <==> exists e :: e in entries && e.owner == Some(serviceId) && s == Lower(e.serialNumber)
  {
    if entries == [] then []
    else
      var rest := Whitelist(entries[1..], serviceId);
      assert forall e :: e in entries[1..] ==> e in entries;
      assert forall e :: e in entries ==> e == entries[0] || e in entries[1..];
      if entries[0].owner == Some(serviceId) then [Lower(entries[0].serialNumber)] + rest else rest
  }

  /** handle_update(service). */
  method HandleUpdate(db: ObjectStore, serviceId: int)
    modifies db
    ensures db.instances == Revalidated(old(db.instances), Resync(Whitelist(old(db.entries), serviceId)))
    ensures db.writes == old(db.writes) + Saves(old(db.instances), Resync(Whitelist(old(db.entries), serviceId)))
    ensures db.entries == old(db.entries) && db.onus == old(db.onus) && db.subscribers == old(db.subscribers)
  {
    var whitelist := Whitelist(db.entries, serviceId);
    ghost var rule := Resync(whitelist);
    ghost var sis := db.instances;
    var i := 0;
    while i < |db.instances|
      invariant 0 <= i <= |db.instances| == |sis|
      invariant forall k :: 0 <= k < i ==> db.instances[k] == Apply(sis[k], NewValidity(rule, sis[k]))
      invariant forall k :: i <= k < |sis| ==> db.instances[k] == sis[k]
      invariant db.writes == old(db.writes) + Saves(sis[..i], rule)
      invariant db.entries == old(db.entries) && db.onus == old(db.onus) && db.subscribers == old(db.subscribers)
    {
      PassStep(sis, rule, i);
      ResyncOne(db, i, whitelist);
      i := i + 1;
    }
    assert sis[..i] == sis;
    assert db.instances == Revalidated(sis, rule);
  }

  /** One iteration of the loop: two tests one after the other, on membership
      and then on non-membership; the second sees the value the first assigned. */
  method ResyncOne(db: ObjectStore, i: nat, whitelist: seq<string>)
    requires i < |db.instances|
    modifies db
    ensures db.instances == old(db.instances)[i := Apply(old(db.instances[i]), NewValidity(Resync(whitelist), old(db.instances[i])))]
    ensures db.writes == old(db.writes) + SaveOf(old(db.instances[i]), i, Resync(whitelist))
    ensures db.entries == old(db.entries) && db.onus == old(db.onus) && db.subscribers == old(db.subscribers)
  {
    var si := db.instances[i];
    if Lower(si.serialNumber) in whitelist && !(si.valid == "valid") {
      si := si.(valid := "valid");
      db.instances := db.instances[i := si];
      db.writes := db.writes + [InstanceSaved(i, {Valid, NoSync})];
    }
    if Lower(si.serialNumber) !in whitelist && !(si.valid == "invalid") {
      si := si.(valid := "invalid");
      db.instances := db.instances[i := si];
      db.writes := db.writes + [InstanceSaved(i, {Valid, NoSync})];
    }
  }

  /** After a re-sync an instance is valid exactly when one of the service's
      entries has its serial number up to case, invalid otherwise, and no other
      field of it changed. It was saved exactly when its flag was wrong. */
  lemma ResyncFollowsWhitelist(instances: seq<ServiceInstance>, entries: seq<WhitelistEntry>, serviceId: int, i: int)
    requires 0 <= i < |instances|
    ensures var listed := exists e :: e in entries && e.owner == Some(serviceId) &&
                                      EqualsIgnoreCase(e.serialNumber, instances[i].serialNumber);
            Revalidated(instances, Resync(Whitelist(entries, serviceId)))[i] ==
              instances[i].(valid := if listed then "valid" else "invalid")
    ensures var listed := exists e :: e in entries && e.owner == Some(serviceId) &&
                                      EqualsIgnoreCase(e.serialNumber, instances[i].serialNumber);
            InstanceSaved(i, SavedFields) in Saves(instances, Resync(Whitelist(entries, serviceId))) <==>
              instances[i].valid != (if listed then "valid" else "invalid")
  {
    var rule := Resync(Whitelist(entries, serviceId));
    SavedExactlyWhenDecided(instances, rule, i);
  }

  /** For an instance of the service itself, the re-sync agrees with the whitelist
      test of `validate_onu`: valid exactly when the validator finds it listed. */
  lemma ResyncAgreesWithValidator(instances: seq<ServiceInstance>, entries: seq<WhitelistEntry>,
                                  onus: map<string, OnuDevice>, i: int)
    requires 0 <= i < |instances|
    ensures Revalidated(instances, Resync(Whitelist(entries, instances[i].ownerId)))[i].valid == "valid" <==>
            Helpers.ValidateOnu(instances[i], entries, onus) != Ok(Helpers.Verdict(false, Helpers.NotInWhitelist))
  {
  }

  /** Re-syncing with an unchanged whitelist changes and saves nothing. */
  lemma ResyncIsIdempotent(instances: seq<ServiceInstance>, entries: seq<WhitelistEntry>, serviceId: int)
    ensures Revalidated(Revalidated(instances, Resync(Whitelist(entries, serviceId))), Resync(Whitelist(entries, serviceId)))
            == Revalidated(instances, Resync(Whitelist(entries, serviceId)))
    ensures Saves(Revalidated(instances, Resync(Whitelist(entries, serviceId))), Resync(Whitelist(entries, serviceId))) == []
  {
    SecondPassSavesNothing(instances, Resync(Whitelist(entries, serviceId)));
  }
}
