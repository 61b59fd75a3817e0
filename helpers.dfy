/** AttHelpers (xos/synchronizer/helpers.py): the whitelist validator and the
    two lookups the event steps share. */
module Helpers {
  import opened Common
  import opened Records

  const NotInWhitelist := "ONU not found in whitelist"
  const WrongLocation := "ONU activated in wrong location"
  const Validated := "ONU has been validated"

  /** `[valid, message]` as returned by `validate_onu`. */
  datatype Verdict = Verdict(valid: bool, message: string)

  function UnknownOnu(serialNumber: string): string {
    "ONU device " + serialNumber + " is not know to XOS yet"
  }

  /** A whitelist entry of the instance's owner whose serial number equals the
      instance's, ignoring case. */
  predicate Listed(e: WhitelistEntry, si: ServiceInstance) {
    e.owner == Some(si.ownerId) && EqualsIgnoreCase(e.serialNumber, si.serialNumber)
  }

  /** `entries[i]` is the first entry listing `si`. */
  predicate FirstListed(entries: seq<WhitelistEntry>, si: ServiceInstance, i: int) {
    0 <= i < |entries| && Listed(entries[i], si) && forall j :: 0 <= j < i ==> !Listed(entries[j], si)
  }

  /** The entries filtered by owner and then by lower-cased serial number, in store order. */
  function MatchingEntries(entries: seq<WhitelistEntry>, si: ServiceInstance): (r: seq<WhitelistEntry>)
    ensures forall e :: e in r <==> e in entries && Listed(e, si)
    ensures forall i :: FirstListed(entries, si, i) ==> r != [] && r[0] == entries[i]
  {
    if entries == [] then []
    else
      var rest := MatchingEntries(entries[1..], si);
      assert forall i :: FirstListed(entries, si, i) && i > 0 ==> FirstListed(entries[1..], si, i - 1);
      if Listed(entries[0], si) then [entries[0]] + rest else rest
  }

  /** `AttHelpers.validate_onu`: the whitelist check comes first, then the
      inventory lookup (which defers when the ONU is unknown), then the
      location of the first matching entry. */
  function ValidateOnu(si: ServiceInstance, entries: seq<WhitelistEntry>, onus: map<string, OnuDevice>)
    : (r: Result<Verdict, Failure>)
    ensures r == Ok(Verdict(false, NotInWhitelist)) <==> forall e :: e in entries ==> !Listed(e, si)
    ensures r.Err? <==> (exists e :: e in entries && Listed(e, si)) && si.serialNumber !in onus
    ensures r.Err? ==> r.error == Deferred(UnknownOnu(si.serialNumber))
    ensures forall i :: FirstListed(entries, si, i) && si.serialNumber in onus ==>
              r == Ok(if onus[si.serialNumber].ponPortNo != entries[i].ponPortId || si.ofDpid != entries[i].deviceId
                      then Verdict(false, WrongLocation)
                      else Verdict(true, Validated))
    ensures r.Ok? && r.value.valid ==> r.value.message == Validated
  {
    var matching := MatchingEntries(entries, si);
    if |matching| == 0 then
      Ok(Verdict(false, NotInWhitelist))
    else
      assert matching[0] in matching;
      var whitelisted := matching[0];
      if si.serialNumber !in onus then
        Err(Deferred(UnknownOnu(si.serialNumber)))
      else if onus[si.serialNumber].ponPortNo != whitelisted.ponPortId || si.ofDpid != whitelisted.deviceId then
        Ok(Verdict(false, WrongLocation))
      else
        Ok(Verdict(true, Validated))
  }

  /** A serial number and a whitelist serial that differ only in case match:
      changing the case of whitelist serial numbers does not change the verdict. */
  lemma {:induction false} ValidateOnuIgnoresCase(si: ServiceInstance, entries: seq<WhitelistEntry>,
                                                  recased: seq<WhitelistEntry>, onus: map<string, OnuDevice>)
    requires |recased| == |entries|
    requires forall i :: 0 <= i < |entries| ==>
               recased[i] == entries[i].(serialNumber := recased[i].serialNumber) &&
               EqualsIgnoreCase(recased[i].serialNumber, entries[i].serialNumber)
    ensures ValidateOnu(si, recased, onus) == ValidateOnu(si, entries, onus)
  {
    MatchingEntriesIgnoresCase(si, entries, recased);
  }

  lemma {:induction false} MatchingEntriesIgnoresCase(si: ServiceInstance, entries: seq<WhitelistEntry>,
                                                      recased: seq<WhitelistEntry>)
    requires |recased| == |entries|
    requires forall i :: 0 <= i < |entries| ==>
               recased[i] == entries[i].(serialNumber := recased[i].serialNumber) &&
               EqualsIgnoreCase(recased[i].serialNumber, entries[i].serialNumber)
    ensures |MatchingEntries(recased, si)| == |MatchingEntries(entries, si)|
    ensures forall k :: 0 <= k < |MatchingEntries(entries, si)| ==>
              MatchingEntries(recased, si)[k] ==
              MatchingEntries(entries, si)[k].(serialNumber := MatchingEntries(recased, si)[k].serialNumber)
  {
    if entries != [] {
      assert Listed(recased[0], si) == Listed(entries[0], si);
      MatchingEntriesIgnoresCase(si, entries[1..], recased[1..]);
    }
  }

  /** The example of the helper tests: "brcm1234" on the whitelist validates "BRCM1234". */
  lemma LowerCaseWhitelistEntryValidates(si: ServiceInstance, e: WhitelistEntry, onus: map<string, OnuDevice>)
    requires si.serialNumber == "BRCM1234" && e.serialNumber == "brcm1234"
    requires e.owner == Some(si.ownerId) && e.deviceId == si.ofDpid
    requires si.serialNumber in onus && onus[si.serialNumber].ponPortNo == e.ponPortId
    ensures ValidateOnu(si, [e], onus) == Ok(Verdict(true, Validated))
  {
  }

  // ---------------------------------------------------------------------
  // Lookups used by the event steps

  const NoSerialMessage := "Cannot find onu serial number for this event"
  const NoInstanceMessage := "Cannot find att-workflow-driver service instance for this serial number %s"

  /** The OLT service's `get_onu_sn_from_openflow(deviceId, portNumber)`; a
      missing key stands for a None answer. */
  type Topology = map<(string, string), string>

  /** `AttHelpers.get_onu_sn`: the ONU serial number behind an OpenFlow port,
      raising when the lookup answers None or an empty string. */
  function GetOnuSn(topology: Topology, deviceId: string, portNumber: string): (r: Result<string, Failure>)
    ensures r.Ok? <==> (deviceId, portNumber) in topology && topology[(deviceId, portNumber)] != ""
    ensures r.Ok? ==> r.value == topology[(deviceId, portNumber)] && r.value != ""
    ensures r.Err? ==> r.error == Raised(NoSerialMessage)
  {
    if (deviceId, portNumber) !in topology || topology[(deviceId, portNumber)] == "" then
      Err(Raised(NoSerialMessage))
    else
      Ok(topology[(deviceId, portNumber)])
  }

  /** `AttHelpers.get_si_by_sn`: the position of the service instance with
      exactly this serial number (the first one, should there be several). */
  function GetSiBySn(instances: seq<ServiceInstance>, serialNumber: string): (r: Result<nat, Failure>)
    ensures r.Ok? ==> r.value < |instances| && instances[r.value].serialNumber == serialNumber
    ensures r.Ok? ==> forall j :: 0 <= j < r.value ==> instances[j].serialNumber != serialNumber
    ensures r.Err? <==> forall j :: 0 <= j < |instances| ==> instances[j].serialNumber != serialNumber
    ensures r.Err? ==> r.error == Raised(NoInstanceMessage)
  {
    match FirstIndexWhere(instances, (si: ServiceInstance) => si.serialNumber == serialNumber)
    case Some(i) => Ok(i)
    case None => Err(Raised(NoInstanceMessage))
  }
}
