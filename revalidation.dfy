/** What the whitelist-driven policies do to the `valid` flag of the service
    instances: each visits every instance once, decides whether it needs a new
    `valid` value, and if so assigns it and saves the instance with
    `update_fields=["valid", "no_sync", ...]`. `NewValidity` says, for one
    instance, which value a policy gives it, or None when the policy leaves it
    alone (and does not save it). */
module Revalidation {
  import opened Common
  import opened Records

  /** The three whitelist-driven passes. */
  datatype Rule =
    | ValidateSerial(serialNumber: string)                    // a whitelist entry was created or updated
    | InvalidateSerialOfOwner(serialNumber: string, ownerId: int)  // a whitelist entry was deleted
    | Resync(whitelist: seq<string>)                          // the service was updated; its entries' lower-cased serials

  /** The value a pass gives `si`, or None when it leaves `si` alone. */
  function NewValidity(rule: Rule, si: ServiceInstance): Option<string> {
    match rule
    case ValidateSerial(serialNumber) =>
      if EqualsIgnoreCase(si.serialNumber, serialNumber) && si.valid != "valid" then Some("valid") else None
    case InvalidateSerialOfOwner(serialNumber, ownerId) =>
      if si.serialNumber == serialNumber && si.ownerId == ownerId && si.valid != "invalid" then Some("invalid") else None
    case Resync(whitelist) =>
      if Lower(si.serialNumber) in whitelist && si.valid != "valid" then Some("valid")
      else if Lower(si.serialNumber) !in whitelist && si.valid != "invalid" then Some("invalid")
      else None
  }

  /** A pass only ever assigns "valid" or "invalid", and only a value the
      instance does not hold yet; an entry update only validates instances
      whose serial matches ignoring case, an entry delete only invalidates
      the owner's instances with exactly that serial, and a re-sync makes an
      instance valid exactly when its lower-cased serial is listed. */
  lemma NewValidityDecides(rule: Rule, si: ServiceInstance)
    ensures NewValidity(rule, si).Some? ==>
              NewValidity(rule, si).value in {"valid", "invalid"} && NewValidity(rule, si).value != si.valid
    ensures rule.ValidateSerial? && NewValidity(rule, si).Some? ==>
              NewValidity(rule, si).value == "valid" && EqualsIgnoreCase(si.serialNumber, rule.serialNumber)
    ensures rule.InvalidateSerialOfOwner? && NewValidity(rule, si).Some? ==>
              NewValidity(rule, si).value == "invalid" && si.serialNumber == rule.serialNumber && si.ownerId == rule.ownerId
    ensures rule.Resync? && NewValidity(rule, si).Some? ==>
              (NewValidity(rule, si).value == "valid" <==> Lower(si.serialNumber) in rule.whitelist)
  {
  }

  /** The fields a revalidation save persists. */
  const SavedFields: set<Field> := {Valid, NoSync}

  function Apply(si: ServiceInstance, d: Option<string>): ServiceInstance {
    if d.Some? then si.(valid := d.value) else si
  }

  /** The instances after every one has been visited. */
  function Revalidated(instances: seq<ServiceInstance>, rule: Rule): (r: seq<ServiceInstance>)
    ensures |r| == |instances|
    ensures forall i :: 0 <= i < |instances| ==> r[i] == Apply(instances[i], NewValidity(rule, instances[i]))
  {
    seq(|instances|, i requires 0 <= i < |instances| => Apply(instances[i], NewValidity(rule, instances[i])))
  }

  function SaveOf(si: ServiceInstance, id: nat, rule: Rule): seq<Write> {
    if NewValidity(rule, si).Some? then [InstanceSaved(id, SavedFields)] else []
  }

  /** The saves a pass over `instances` performs, in visiting order. */
  function Saves(instances: seq<ServiceInstance>, rule: Rule): seq<Write> {
    if instances == [] then []
    else Saves(instances[..|instances| - 1], rule) + SaveOf(instances[|instances| - 1], |instances| - 1, rule)
  }

  /** A pass saves `SavedFields` of instances that get a new value and of no other. */
  lemma {:induction false} SavesOnlyDecided(instances: seq<ServiceInstance>, rule: Rule)
    ensures forall k :: 0 <= k < |Saves(instances, rule)| ==>
              Saves(instances, rule)[k].InstanceSaved? && Saves(instances, rule)[k].fields == SavedFields &&
              Saves(instances, rule)[k].id < |instances| && NewValidity(rule, instances[Saves(instances, rule)[k].id]).Some?
  {
    if instances != [] {
      var n := |instances| - 1;
      var prefix := instances[..n];
      SavesOnlyDecided(prefix, rule);
      assert forall i :: 0 <= i < n ==> prefix[i] == instances[i];
      var before := Saves(prefix, rule);
      var r := Saves(instances, rule);
      assert r == before + SaveOf(instances[n], n, rule);
      assert forall k :: 0 <= k < |before| ==> r[k] == before[k];
    }
  }

  /** A pass saves every instance that gets a new value. */
  lemma {:induction false} SavesAllDecided(instances: seq<ServiceInstance>, rule: Rule)
    ensures forall i :: 0 <= i < |instances| && NewValidity(rule, instances[i]).Some? ==>
              InstanceSaved(i, SavedFields) in Saves(instances, rule)
  {
    if instances != [] {
      var n := |instances| - 1;
      var prefix := instances[..n];
      SavesAllDecided(prefix, rule);
      var r := Saves(instances, rule);
      assert r == Saves(prefix, rule) + SaveOf(instances[n], n, rule);
      forall i | 0 <= i < |instances| && NewValidity(rule, instances[i]).Some?
        ensures InstanceSaved(i, SavedFields) in r
      {
        if i < n {
          assert prefix[i] == instances[i];
          assert InstanceSaved(i, SavedFields) in Saves(prefix, rule);
        } else {
          assert SaveOf(instances[n], n, rule) == [InstanceSaved(n, SavedFields)];
        }
      }
    }
  }

  /** A pass saves in visiting order, so each instance at most once. */
  lemma {:induction false} SavesInOrder(instances: seq<ServiceInstance>, rule: Rule)
    ensures forall k, l :: 0 <= k < l < |Saves(instances, rule)| ==>
              Saves(instances, rule)[k].InstanceSaved? && Saves(instances, rule)[l].InstanceSaved? &&
              Saves(instances, rule)[k].id < Saves(instances, rule)[l].id
  {
    SavesOnlyDecided(instances, rule);
    if instances != [] {
      var n := |instances| - 1;
      var prefix := instances[..n];
      SavesInOrder(prefix, rule);
      SavesOnlyDecided(prefix, rule);
      var before := Saves(prefix, rule);
      var r := Saves(instances, rule);
      assert r == before + SaveOf(instances[n], n, rule);
      assert forall k :: 0 <= k < |before| ==> r[k] == before[k];
    }
  }

  /** Every rule settles: an instance that has just been given its new value
      needs nothing more. */
  lemma NewValiditySettles(rule: Rule, si: ServiceInstance)
    requires NewValidity(rule, si).Some?
    ensures NewValidity(rule, si.(valid := NewValidity(rule, si).value)).None?
  {
  }

  /** A revalidation save persists every field it changed, and an instance is
      saved exactly when it changes. */
  lemma SaveCoversChange(si: ServiceInstance, id: nat, rule: Rule)
    ensures ChangedFields(si, Apply(si, NewValidity(rule, si))) <= SavedFields
    ensures SaveOf(si, id, rule) == [] <==> Apply(si, NewValidity(rule, si)) == si
  {
  }

  /** A second pass over the result of a pass changes and saves nothing. */
  lemma {:induction false} SecondPassSavesNothing(instances: seq<ServiceInstance>, rule: Rule)
    ensures Revalidated(Revalidated(instances, rule), rule) == Revalidated(instances, rule)
    ensures Saves(Revalidated(instances, rule), rule) == []
  {
    var once := Revalidated(instances, rule);
    forall i | 0 <= i < |once| ensures NewValidity(rule, once[i]).None? {
      assert once[i] == Apply(instances[i], NewValidity(rule, instances[i]));
      if NewValidity(rule, instances[i]).Some? {
        NewValiditySettles(rule, instances[i]);
      }
    }
    NothingToDoSavesNothing(once, rule);
  }

  /** An instance is saved exactly when it is given a new value. */
  lemma SavedExactlyWhenDecided(instances: seq<ServiceInstance>, rule: Rule, i: int)
    requires 0 <= i < |instances|
    ensures InstanceSaved(i, SavedFields) in Saves(instances, rule) <==> NewValidity(rule, instances[i]).Some?
  {
    var r := Saves(instances, rule);
    SavesOnlyDecided(instances, rule);
    SavesAllDecided(instances, rule);
    if InstanceSaved(i, SavedFields) in r {
      var k :| 0 <= k < |r| && r[k] == InstanceSaved(i, SavedFields);
    }
  }

  /** A pass in which no instance needs a new value saves nothing. */
  lemma {:induction false} NothingToDoSavesNothing(instances: seq<ServiceInstance>, rule: Rule)
    requires forall i :: 0 <= i < |instances| ==> NewValidity(rule, instances[i]).None?
    ensures Saves(instances, rule) == []
  {
    if instances != [] {
      var n := |instances| - 1;
      NothingToDoSavesNothing(instances[..n], rule);
    }
  }

  /** Visiting one more instance extends the pass by that instance's outcome;
      the step the imperative loops rely on. */
  lemma PassStep(instances: seq<ServiceInstance>, rule: Rule, i: nat)
    requires i < |instances|
    ensures Revalidated(instances[..i + 1], rule) ==
            Revalidated(instances[..i], rule) + [Apply(instances[i], NewValidity(rule, instances[i]))]
    ensures Saves(instances[..i + 1], rule) == Saves(instances[..i], rule) + SaveOf(instances[i], i, rule)
  {
    assert instances[..i + 1][..i] == instances[..i];
  }
}
