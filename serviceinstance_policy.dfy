/** The model policy of AttWorkflowDriverServiceInstance
    (xos/synchronizer/model_policies/model_policy_att_workflow_driver_serviceinstance.py).
    An instance whose ONU is AWAITING or ENABLED is re-validated against the
    whitelist, and the ONU's admin state follows the verdict; any other ONU
    state forces the ONU's admin state to DISABLED. Then the subscriber of the
    ONU, if there is one, gets the status its authentication state maps to.
    The instance is an in-memory object until the final save: its fields are
    changed on a local copy and written back only when nothing has failed. */
module ServiceInstancePolicy {
  import opened Common
  import opened Records
  import opened Helpers

  /** The ONU states that are re-validated; any other one means someone disabled the ONU. */
  predicate Checked(onuState: string) {
    onuState == "AWAITING" || onuState == "ENABLED"
  }

  // ---------------------------------------------------------------------
  // Pure parts: the subscriber lookup and the authentication table

  predicate ServesOnu(sub: Subscriber, serialNumber: string) {
    EqualsIgnoreCase(sub.onuDevice, serialNumber)
  }

  /** get_subscriber: the position of the first subscriber whose ONU serial
      number equals `serialNumber` ignoring case, or None. */
  function GetSubscriber(subscribers: seq<Subscriber>, serialNumber: string): (r: Option<nat>)
    ensures r.Some? ==> r.value < |subscribers| && ServesOnu(subscribers[r.value], serialNumber)
    ensures r.Some? ==> forall j :: 0 <= j < r.value ==> !ServesOnu(subscribers[j], serialNumber)
    ensures r.None? <==> forall j :: 0 <= j < |subscribers| ==> !ServesOnu(subscribers[j], serialNumber)
  {
    FirstIndexWhere(subscribers, (s: Subscriber) => ServesOnu(s, serialNumber))
  }

  /** What update_subscriber assigns for an authentication state: the
      subscriber's status and the instance's status message. */
  datatype AuthOutcome = AuthOutcome(status: string, message: string)

  const AuthStates: set<string> := {"AWAITING", "REQUESTED", "STARTED", "APPROVED", "DENIED"}

  /** The five-way table of update_subscriber; None for any other state, which
      leaves both fields as they were. */
  function AuthStatus(authenticationState: string): (r: Option<AuthOutcome>)
    ensures r.Some? <==> authenticationState in AuthStates
    ensures r.Some? ==> r.value.status in {"awaiting-auth", "enabled", "auth-failed"}
    ensures r.Some? ==> (r.value.status == "enabled" <==> authenticationState == "APPROVED")
    ensures r.Some? ==> (r.value.status == "auth-failed" <==> authenticationState == "DENIED")
  {
    match authenticationState
    case "AWAITING" => Some(AuthOutcome("awaiting-auth", "Awaiting Authentication"))
    case "REQUESTED" => Some(AuthOutcome("awaiting-auth", "Authentication requested"))
    case "STARTED" => Some(AuthOutcome("awaiting-auth", "Authentication started"))
    case "APPROVED" => Some(AuthOutcome("enabled", "Authentication succeded"))
    case "DENIED" => Some(AuthOutcome("auth-failed", "Authentication denied"))
    case _ => None
  }

  /** Each of the five states leaves its own message on the instance. */
  lemma AuthMessagesAreDistinct(a: string, b: string)
    requires AuthStatus(a).Some? && AuthStatus(b).Some? && a != b
    ensures AuthStatus(a).value.message != AuthStatus(b).value.message
  {
  }

  // ---------------------------------------------------------------------
  // The specification of handle_update

  /** What a successful handle_update leaves behind: the instance as saved,
      the admin state given to its ONU and the subscriber list. */
  datatype Outcome = Outcome(si: ServiceInstance, adminState: string, subscribers: seq<Subscriber>)

  /** The instance after validate_onu_state with verdict `v`. */
  function WithVerdict(si: ServiceInstance, v: Verdict): ServiceInstance {
    si.(statusMessage := v.message, onuState := if v.valid then "ENABLED" else "DISABLED")
  }

  /** handle_update as one value: the ONU step (validation or forced disable),
      then the subscriber step. */
  function Reconciled(si: ServiceInstance, entries: seq<WhitelistEntry>, onus: map<string, OnuDevice>,
                      subscribers: seq<Subscriber>): (r: Result<Outcome, Failure>)
    ensures r.Err? ==> r.error == NoSuchObject("ONUDevice") || r.error == Deferred(UnknownOnu(si.serialNumber))
    ensures r.Ok? ==> si.serialNumber in onus && |r.value.subscribers| == |subscribers|
    ensures r.Ok? ==> r.value.si == si.(statusMessage := r.value.si.statusMessage, onuState := r.value.si.onuState)
  {
    if Checked(si.onuState) then
      match ValidateOnu(si, entries, onus)
      case Err(f) => Err(f)
      case Ok(v) => AfterOnu(WithVerdict(si, v), if v.valid then "ENABLED" else "DISABLED", onus, subscribers)
    else
      AfterOnu(si, "DISABLED", onus, subscribers)
  }

  /** The rest of handle_update once the instance's ONU fields are settled:
      update_onu (which fails on an unknown ONU) and the subscriber step. */
  function AfterOnu(si: ServiceInstance, adminState: string, onus: map<string, OnuDevice>,
                    subscribers: seq<Subscriber>): (r: Result<Outcome, Failure>)
    ensures r.Ok? <==> si.serialNumber in onus
    ensures r.Err? ==> r.error == NoSuchObject("ONUDevice")
    ensures r.Ok? ==> r.value.adminState == adminState && |r.value.subscribers| == |subscribers|
    ensures r.Ok? ==> r.value.si == si.(statusMessage := r.value.si.statusMessage)
  {
    if si.serialNumber !in onus then Err(NoSuchObject("ONUDevice"))
    else match GetSubscriber(subscribers, si.serialNumber)
      case None => Ok(Outcome(si, adminState, subscribers))
      case Some(k) =>
        match AuthStatus(si.authenticationState)
        case None => Ok(Outcome(si, adminState, subscribers))
        case Some(a) => Ok(Outcome(si.(statusMessage := a.message), adminState, subscribers[k := subscribers[k].(status := a.status)]))
  }

  /** The saves of a successful handle_update, in order: the ONU, the
      subscriber if there is one, then every field of the instance. */
  function ReconcileWrites(id: nat, serialNumber: string, subscriber: Option<nat>): (r: seq<Write>)
    ensures |r| == (if subscriber.Some? then 3 else 2)
    ensures r[0] == OnuSaved(serialNumber) && r[|r| - 1] == InstanceSaved(id, AllFields)
    ensures subscriber.Some? ==> r[1] == SubscriberSaved(subscriber.value)
  {
    [OnuSaved(serialNumber)] + (if subscriber.Some? then [SubscriberSaved(subscriber.value)] else []) + [InstanceSaved(id, AllFields)]
  }

  // ---------------------------------------------------------------------
  // The policy

  method HandleCreate(db: ObjectStore, id: nat) returns (r: Result<(), Failure>)
    requires id < |db.instances|
    modifies db
    ensures r.Ok? <==> Reconciled(old(db.instances[id]), old(db.entries), old(db.onus), old(db.subscribers)).Ok?
    ensures r.Err? ==> r.error == Reconciled(old(db.instances[id]), old(db.entries), old(db.onus), old(db.subscribers)).error
    ensures r.Err? ==> (db.instances == old(db.instances) && db.onus == old(db.onus) &&
                        db.subscribers == old(db.subscribers) && db.writes == old(db.writes))
    ensures r.Ok? ==> (
      var out := Reconciled(old(db.instances[id]), old(db.entries), old(db.onus), old(db.subscribers)).value;
      var serialNumber := old(db.instances[id]).serialNumber;
      db.instances == old(db.instances)[id := out.si] &&
      serialNumber in old(db.onus) &&
      db.onus == old(db.onus)[serialNumber := old(db.onus)[serialNumber].(adminState := out.adminState)] &&
      db.subscribers == out.subscribers &&
      db.writes == old(db.writes) + ReconcileWrites(id, serialNumber, GetSubscriber(old(db.subscribers), serialNumber)))
    ensures db.entries == old(db.entries)
  {
    r := HandleUpdate(db, id);
  }

  method HandleUpdate(db: ObjectStore, id: nat) returns (r: Result<(), Failure>)
    requires id < |db.instances|
    modifies db
    ensures r.Ok? <==> Reconciled(old(db.instances[id]), old(db.entries), old(db.onus), old(db.subscribers)).Ok?
    ensures r.Err? ==> r.error == Reconciled(old(db.instances[id]), old(db.entries), old(db.onus), old(db.subscribers)).error
    ensures r.Err? ==> (db.instances == old(db.instances) && db.onus == old(db.onus) &&
                        db.subscribers == old(db.subscribers) && db.writes == old(db.writes))
    ensures r.Ok? ==> (
      var out := Reconciled(old(db.instances[id]), old(db.entries), old(db.onus), old(db.subscribers)).value;
      var serialNumber := old(db.instances[id]).serialNumber;
      db.instances == old(db.instances)[id := out.si] &&
      serialNumber in old(db.onus) &&
      db.onus == old(db.onus)[serialNumber := old(db.onus)[serialNumber].(adminState := out.adminState)] &&
      db.subscribers == out.subscribers &&
      db.writes == old(db.writes) + ReconcileWrites(id, serialNumber, GetSubscriber(old(db.subscribers), serialNumber)))
    ensures db.entries == old(db.entries)
  {
    var si := db.instances[id];
    if si.onuState == "AWAITING" || si.onuState == "ENABLED" {
      var validated := ValidateOnuState(db, si);
      if validated.Err? {
        r := Err(validated.error);
        return;
      }
      si := validated.value;
    } else {
      var updated := UpdateOnu(db, si.serialNumber, "DISABLED");
      if updated.Err? {
        r := Err(updated.error);
        return;
      }
    }
    FinishUpdate(db, id, si);
    r := Ok(());
  }

  /** The rest of handle_update once the ONU is saved: the subscriber step,
      then the save of every field of the instance. */
  method FinishUpdate(db: ObjectStore, id: nat, si: ServiceInstance)
    requires id < |db.instances| && si.serialNumber in db.onus
    modifies db
    ensures var out := AfterOnu(si, "", old(db.onus), old(db.subscribers)).value;
            db.instances == old(db.instances)[id := out.si] && db.subscribers == out.subscribers
    ensures db.writes == old(db.writes) + ReconcileWrites(id, si.serialNumber, GetSubscriber(old(db.subscribers), si.serialNumber))[1..]
    ensures db.entries == old(db.entries) && db.onus == old(db.onus)
  {
    var updated := si;
    var subscriber := GetSubscriber(db.subscribers, si.serialNumber);
    if subscriber.Some? {
      updated := UpdateSubscriber(db, subscriber.value, si);
    }
    db.instances := db.instances[id := updated];
    db.writes := db.writes + [InstanceSaved(id, AllFields)];
  }

  /** validate_onu_state: a deferral propagates before anything is written;
      otherwise the verdict's message and the matching ONU state go onto the
      instance and the ONU's admin state follows. */
  method ValidateOnuState(db: ObjectStore, si: ServiceInstance) returns (r: Result<ServiceInstance, Failure>)
    modifies db
    ensures r.Err? <==> si.serialNumber !in old(db.onus)
    ensures r.Err? ==> r.error == (match ValidateOnu(si, old(db.entries), old(db.onus))
                                   case Err(f) => f
                                   case Ok(_) => NoSuchObject("ONUDevice"))
    ensures r.Err? ==> db.onus == old(db.onus) && db.writes == old(db.writes)
    ensures r.Ok? ==> (ValidateOnu(si, old(db.entries), old(db.onus)).Ok? &&
                       r.value == WithVerdict(si, ValidateOnu(si, old(db.entries), old(db.onus)).value))
    ensures r.Ok? ==> (db.onus == old(db.onus)[si.serialNumber := old(db.onus)[si.serialNumber].(adminState := r.value.onuState)] &&
                       db.writes == old(db.writes) + [OnuSaved(si.serialNumber)])
    ensures db.instances == old(db.instances) && db.entries == old(db.entries) && db.subscribers == old(db.subscribers)
  {
    var verdict := ValidateOnu(si, db.entries, db.onus);
    if verdict.Err? {
      r := Err(verdict.error);
      return;
    }
    var valid, message := verdict.value.valid, verdict.value.message;
    var s := si.(statusMessage := message);
    if valid {
      s := s.(onuState := "ENABLED");
      var updated := UpdateOnu(db, s.serialNumber, "ENABLED");
      if updated.Err? {
        r := Err(updated.error);
        return;
      }
    } else {
      s := s.(onuState := "DISABLED");
      var updated := UpdateOnu(db, s.serialNumber, "DISABLED");
      if updated.Err? {
        r := Err(updated.error);
        return;
      }
    }
    r := Ok(s);
  }

  /** update_onu: the ONU with this serial number gets the admin state and is
      saved; the lookup fails when there is no such ONU. */
  method UpdateOnu(db: ObjectStore, serialNumber: string, adminState: string) returns (r: Result<(), Failure>)
    modifies db
    ensures r.Err? <==> serialNumber !in old(db.onus)
    ensures r.Err? ==> r.error == NoSuchObject("ONUDevice") && db.onus == old(db.onus) && db.writes == old(db.writes)
    ensures r.Ok? ==> (db.onus == old(db.onus)[serialNumber := old(db.onus)[serialNumber].(adminState := adminState)] &&
                       db.writes == old(db.writes) + [OnuSaved(serialNumber)])
    ensures db.instances == old(db.instances) && db.entries == old(db.entries) && db.subscribers == old(db.subscribers)
  {
    if serialNumber !in db.onus {
      r := Err(NoSuchObject("ONUDevice"));
      return;
    }
    var onu := db.onus[serialNumber];
    onu := onu.(adminState := adminState);
    db.onus := db.onus[serialNumber := onu];
    db.writes := db.writes + [OnuSaved(serialNumber)];
    r := Ok(());
  }

  /** update_subscriber: the authentication table sets the subscriber's status
      and the instance's message (a state outside the table changes neither);
      the subscriber is saved in every case. */
  method UpdateSubscriber(db: ObjectStore, k: nat, si: ServiceInstance) returns (updated: ServiceInstance)
    requires k < |db.subscribers|
    modifies db
    ensures AuthStatus(si.authenticationState).None? ==> updated == si && db.subscribers == old(db.subscribers)
    ensures AuthStatus(si.authenticationState).Some? ==> (
      updated == si.(statusMessage := AuthStatus(si.authenticationState).value.message) &&
      db.subscribers == old(db.subscribers)[k := old(db.subscribers[k]).(status := AuthStatus(si.authenticationState).value.status)])
    ensures db.writes == old(db.writes) + [SubscriberSaved(k)]
    ensures db.instances == old(db.instances) && db.entries == old(db.entries) && db.onus == old(db.onus)
  {
    var subscriber := db.subscribers[k];
    updated := si;
    if si.authenticationState == "AWAITING" {
      subscriber := subscriber.(status := "awaiting-auth");
      updated := updated.(statusMessage := "Awaiting Authentication");
    } else if si.authenticationState == "REQUESTED" {
      subscriber := subscriber.(status := "awaiting-auth");
      updated := updated.(statusMessage := "Authentication requested");
    } else if si.authenticationState == "STARTED" {
      subscriber := subscriber.(status := "awaiting-auth");
      updated := updated.(statusMessage := "Authentication started");
    } else if si.authenticationState == "APPROVED" {
      subscriber := subscriber.(status := "enabled");
      updated := updated.(statusMessage := "Authentication succeded");
    } else if si.authenticationState == "DENIED" {
      subscriber := subscriber.(status := "auth-failed");
      updated := updated.(statusMessage := "Authentication denied");
    }
    db.subscribers := db.subscribers[k := subscriber];
    db.writes := db.writes + [SubscriberSaved(k)];
  }

  // ---------------------------------------------------------------------
  // Properties of handle_update

  /** An AWAITING or ENABLED instance: a deferral of the validator is the
      result, before any write; otherwise the instance's ONU state and the
      ONU's admin state both become ENABLED when the verdict is valid and
      DISABLED when it is not. */
  lemma CheckedFollowsVerdict(si: ServiceInstance, entries: seq<WhitelistEntry>, onus: map<string, OnuDevice>,
                              subscribers: seq<Subscriber>)
    requires Checked(si.onuState)
    ensures ValidateOnu(si, entries, onus).Err? ==> Reconciled(si, entries, onus, subscribers) == Err(ValidateOnu(si, entries, onus).error)
    ensures Reconciled(si, entries, onus, subscribers).Err? <==> si.serialNumber !in onus
    ensures Reconciled(si, entries, onus, subscribers).Ok? ==> (
              var state := if ValidateOnu(si, entries, onus).value.valid then "ENABLED" else "DISABLED";
              Reconciled(si, entries, onus, subscribers).value.si.onuState == state &&
              Reconciled(si, entries, onus, subscribers).value.adminState == state)
  {
  }

  /** Any other ONU state: the whitelist is not consulted, the instance keeps
      its ONU state and the ONU is disabled. */
  lemma UncheckedDisablesOnu(si: ServiceInstance, entries: seq<WhitelistEntry>, others: seq<WhitelistEntry>,
                             onus: map<string, OnuDevice>, subscribers: seq<Subscriber>)
    requires !Checked(si.onuState)
    ensures Reconciled(si, entries, onus, subscribers) == Reconciled(si, others, onus, subscribers)
    ensures Reconciled(si, entries, onus, subscribers).Err? <==> si.serialNumber !in onus
    ensures Reconciled(si, entries, onus, subscribers).Ok? ==>
              Reconciled(si, entries, onus, subscribers).value.si.onuState == si.onuState &&
              Reconciled(si, entries, onus, subscribers).value.adminState == "DISABLED"
  {
  }

  /** Either way the ONU ends up ENABLED exactly when the instance says so. */
  lemma AdminStateMatchesOnuState(si: ServiceInstance, entries: seq<WhitelistEntry>, onus: map<string, OnuDevice>,
                                  subscribers: seq<Subscriber>)
    requires Reconciled(si, entries, onus, subscribers).Ok?
    ensures Reconciled(si, entries, onus, subscribers).value.adminState in {"ENABLED", "DISABLED"}
    ensures Reconciled(si, entries, onus, subscribers).value.adminState == "ENABLED" <==>
            Reconciled(si, entries, onus, subscribers).value.si.onuState == "ENABLED"
  {
  }

  /** Only the ONU state and the status message of the instance change; only
      the status of the first subscriber of the ONU changes, and nothing when
      the ONU has no subscriber. */
  lemma ReconcileFrame(si: ServiceInstance, entries: seq<WhitelistEntry>, onus: map<string, OnuDevice>,
                       subscribers: seq<Subscriber>)
    requires Reconciled(si, entries, onus, subscribers).Ok?
    ensures Reconciled(si, entries, onus, subscribers).value.si ==
            si.(onuState := Reconciled(si, entries, onus, subscribers).value.si.onuState,
                statusMessage := Reconciled(si, entries, onus, subscribers).value.si.statusMessage)
    ensures |Reconciled(si, entries, onus, subscribers).value.subscribers| == |subscribers|
    ensures forall j :: 0 <= j < |subscribers| && GetSubscriber(subscribers, si.serialNumber) != Some(j) ==>
              Reconciled(si, entries, onus, subscribers).value.subscribers[j] == subscribers[j]
    ensures forall j :: 0 <= j < |subscribers| ==>
              Reconciled(si, entries, onus, subscribers).value.subscribers[j] ==
              subscribers[j].(status := Reconciled(si, entries, onus, subscribers).value.subscribers[j].status)
  {
  }

  /** The status message is written twice: the verdict's message first (for
      an AWAITING or ENABLED instance), then the authentication message when
      the ONU has a subscriber and the authentication state is in the table. */
  lemma StatusMessageOrder(si: ServiceInstance, entries: seq<WhitelistEntry>, onus: map<string, OnuDevice>,
                           subscribers: seq<Subscriber>)
    requires Reconciled(si, entries, onus, subscribers).Ok?
    ensures Reconciled(si, entries, onus, subscribers).value.si.statusMessage ==
            if GetSubscriber(subscribers, si.serialNumber).Some? && AuthStatus(si.authenticationState).Some?
            then AuthStatus(si.authenticationState).value.message
            else if Checked(si.onuState) then ValidateOnu(si, entries, onus).value.message
            else si.statusMessage
  {
  }

  /** The subscriber gets the status of the authentication table, or keeps its own. */
  lemma SubscriberFollowsAuthentication(si: ServiceInstance, entries: seq<WhitelistEntry>, onus: map<string, OnuDevice>,
                                        subscribers: seq<Subscriber>)
    requires Reconciled(si, entries, onus, subscribers).Ok?
    requires GetSubscriber(subscribers, si.serialNumber).Some?
    ensures var k := GetSubscriber(subscribers, si.serialNumber).value;
            Reconciled(si, entries, onus, subscribers).value.subscribers[k].status ==
            if AuthStatus(si.authenticationState).Some? then AuthStatus(si.authenticationState).value.status
            else subscribers[k].status
  {
  }

  /** The validator reads only the serial number, owner and datapath of the
      instance and only the PON port of the ONU. */
  lemma ValidateOnuFrame(si: ServiceInstance, si': ServiceInstance, entries: seq<WhitelistEntry>,
                         onus: map<string, OnuDevice>, onus': map<string, OnuDevice>)
    requires si'.serialNumber == si.serialNumber && si'.ownerId == si.ownerId && si'.ofDpid == si.ofDpid
    requires onus'.Keys == onus.Keys
    requires forall s :: s in onus ==> onus'[s].ponPortNo == onus[s].ponPortNo
    ensures ValidateOnu(si', entries, onus') == ValidateOnu(si, entries, onus)
  {
    assert MatchingEntries(entries, si') == MatchingEntries(entries, si) by {
      MatchingEntriesSameKey(entries, si, si');
    }
  }

  lemma {:induction false} MatchingEntriesSameKey(entries: seq<WhitelistEntry>, si: ServiceInstance, si': ServiceInstance)
    requires si'.serialNumber == si.serialNumber && si'.ownerId == si.ownerId
    ensures MatchingEntries(entries, si') == MatchingEntries(entries, si)
  {
    if entries != [] {
      MatchingEntriesSameKey(entries[1..], si, si');
    }
  }

  /** The subscriber lookup ignores the status it is about to change. */
  lemma GetSubscriberIgnoresStatus(subscribers: seq<Subscriber>, k: nat, status: string, serialNumber: string)
    requires k < |subscribers|
    ensures GetSubscriber(subscribers[k := subscribers[k].(status := status)], serialNumber) ==
            GetSubscriber(subscribers, serialNumber)
  {
    var subscribers' := subscribers[k := subscribers[k].(status := status)];
    assert forall j :: 0 <= j < |subscribers| ==> (ServesOnu(subscribers'[j], serialNumber) <==> ServesOnu(subscribers[j], serialNumber));
    FirstIndexWhereSamePredicate(subscribers, subscribers', serialNumber);
  }

  lemma {:induction false} FirstIndexWhereSamePredicate(a: seq<Subscriber>, b: seq<Subscriber>, serialNumber: string)
    requires |a| == |b|
    requires forall j :: 0 <= j < |a| ==> (ServesOnu(a[j], serialNumber) <==> ServesOnu(b[j], serialNumber))
    ensures GetSubscriber(a, serialNumber) == GetSubscriber(b, serialNumber)
  {
  }

  /** Running handle_update again on what it saved changes nothing: same
      instance, same admin state, same subscribers. */
  lemma ReconcileIsIdempotent(si: ServiceInstance, entries: seq<WhitelistEntry>, onus: map<string, OnuDevice>,
                              subscribers: seq<Subscriber>)
    requires Reconciled(si, entries, onus, subscribers).Ok?
    ensures si.serialNumber in onus
    ensures Reconciled(Reconciled(si, entries, onus, subscribers).value.si, entries,
                       onus[si.serialNumber := onus[si.serialNumber].(adminState := Reconciled(si, entries, onus, subscribers).value.adminState)],
                       Reconciled(si, entries, onus, subscribers).value.subscribers)
            == Reconciled(si, entries, onus, subscribers)
  {
    var out := Reconciled(si, entries, onus, subscribers).value;
    var onus' := onus[si.serialNumber := onus[si.serialNumber].(adminState := out.adminState)];
    ReconcileFrame(si, entries, onus, subscribers);
    ValidateOnuFrame(si, out.si, entries, onus, onus');
    if Checked(si.onuState) {
      var v := ValidateOnu(si, entries, onus).value;
      var admin := if v.valid then "ENABLED" else "DISABLED";
      AfterOnuSettles(WithVerdict(si, v), admin, onus, onus', subscribers, WithVerdict(si, v));
      AfterOnuSettles(WithVerdict(si, v), admin, onus, onus', subscribers, out.si);
      if v.valid {
        assert WithVerdict(out.si, v) == WithVerdict(si, v);
      }
    } else {
      AfterOnuSettles(si, "DISABLED", onus, onus', subscribers, out.si);
    }
  }

  /** The subscriber step settles: repeated on its own result, or on the
      instance it started from, it gives the same outcome again. */
  lemma AfterOnuSettles(si: ServiceInstance, adminState: string, onus: map<string, OnuDevice>,
                        onus': map<string, OnuDevice>, subscribers: seq<Subscriber>, si': ServiceInstance)
    requires AfterOnu(si, adminState, onus, subscribers).Ok?
    requires si.serialNumber in onus'
    requires si' == si || si' == AfterOnu(si, adminState, onus, subscribers).value.si
    ensures AfterOnu(si', adminState, onus', AfterOnu(si, adminState, onus, subscribers).value.subscribers)
            == AfterOnu(si, adminState, onus, subscribers)
  {
    match GetSubscriber(subscribers, si.serialNumber)
    case None =>
    case Some(k) =>
      if AuthStatus(si.authenticationState).Some? {
        var a := AuthStatus(si.authenticationState).value;
        var subscribers' := subscribers[k := subscribers[k].(status := a.status)];
        GetSubscriberIgnoresStatus(subscribers, k, a.status, si.serialNumber);
        assert subscribers'[k := subscribers'[k].(status := a.status)] == subscribers';
      }
  }
}
