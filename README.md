# ATT workflow driver: subscriber reconciliation, modelled in Dafny

This project models the part of the ATT workflow driver synchronizer that
decides whether a subscriber's ONU may come up, and keeps the records it
depends on consistent with the whitelist. It covers these parts:

- **Whitelist validator** (`AttHelpers.validate_onu`): the owner's
  whitelist entries are filtered by serial number, ignoring case. The result
  is one of three verdicts, or a deferral when the ONU is not in the
  inventory yet. The checks run in a fixed order.
- **Service-instance model policy**: re-validates an AWAITING or ENABLED ONU
  and sets the ONU's admin state from the verdict. Any other ONU state forces
  the ONU to DISABLED. It then maps the authentication state onto the
  subscriber's status and the instance's status message.
- **Whitelist-driven `valid` flag**:
  - the whitelist-entry policy (create, update, delete);
  - the service policy's full re-sync;
  - the sync step, which checks the "external OSS".
- **Event steps**: authentication, DHCP and ONU events, and the service's
  find-or-create wrapper.

### How the model is built

- **Object store.** One object store (`Records.ObjectStore`) holds:
  - the service instances, whitelist entries and subscribers, as sequences;
  - the ONU inventory, as a map from serial number;
  - a write log with one entry per ORM save, listing the fields that save
    persists.
- **Operations.** Policies and steps are methods on that store. Each method
  states its whole new state in terms of a pure function of the old state,
  and the properties the source promises are lemmas about those functions:
  - `Revalidation.Revalidated` and `Revalidation.Saves` for the three
    `valid` loops;
  - `ServiceInstancePolicy.Reconciled` for `handle_update`.
- **Failures.** Each failure the Python code raises is a `Common.Failure`
  value:
  - a validator deferral;
  - a plain exception with its message;
  - a `NameError`;
  - a failed ORM `get`;
  - a `ValueError` from `long()`;
  - a failed `assert`.

  A failing operation writes nothing.

### Behaviour reproduced as written

- **Service policy re-sync.** It re-validates every service instance in the
  store against the whitelist of the service being updated, whatever the
  instance's owner.
- **Sync step.** It compares serial numbers exactly. The validator ignores
  case. `SyncServiceInstance.OssIsCaseSensitive` shows an instance that the
  validator accepts and the sync step marks invalid.
- **Whitelist-entry update and delete select different instances.**
  - Update touches every instance whose serial number matches, ignoring
    case, whatever its owner.
  - Delete touches only instances with exactly that serial number and that
    owner.

  See `WhitelistEntryPolicy.UpdateAndDeleteMatchDifferently`.
- **Authentication step's instance lookup.** Its missing-instance handler
  uses a name that is not bound there. A missing instance therefore ends in
  a `NameError` for `value`, not in the intended exception (auth_event.py,
  line 43).

## Model

| member | source | states |
|---|---|---|
| Common.Lower | xos/synchronizer/helpers.py:36 | `.lower()` on a serial number keeps the length, lower-cases each ASCII letter and leaves no ASCII upper-case letter |
| Common.ParseLong | xos/synchronizer/event_steps/onu_event.py:39 | `long(portNumber)` in base 10; a text it cannot read is a ValueError naming that text |
| Common.ParseLongIgnoresPadding | xos/synchronizer/event_steps/onu_event.py:39 | whitespace before and after the port string neither makes nor breaks a number, nor changes its value |
| Common.ParseLongNumeral | xos/synchronizer/event_steps/onu_event.py:39 | every numeral `long()` accepts (whitespace, optional sign, whitespace, digits with leading zeros allowed, optional `L`/`l`, whitespace) reads as its signed decimal value |
| Common.ParseLongAcceptsOnlyNumerals | xos/synchronizer/event_steps/onu_event.py:39 | a text `long()` reads holds at least one digit and no character other than whitespace, digits, signs and the `L` suffix |
| Common.Decimal | xos/synchronizer/event_steps/onu_event.py:39 | the decimal rendering of a port number is a non-empty run of digits |
| Common.DecimalDigitsValue | xos/synchronizer/event_steps/onu_event.py:39 | the digits of a rendered number have that number as their value |
| Common.ParseLongDecimal | xos/synchronizer/event_steps/onu_event.py:39 | parsing a rendered port number gives back the number |
| Records.ChangedFields | xos/synchronizer/event_steps/dhcp_event.py:46 | the fields `save_changed_fields` persists are exactly those that differ, and none exactly when the record is unchanged |
| Records.ObjectStore.SaveChangedFields | xos/synchronizer/event_steps/dhcp_event.py:46 | the record takes its in-memory value; one save of exactly the changed fields, no save when nothing changed |
| Records.ObjectStore.Create | xos/synchronizer/models/convenience/attworkflowdriverservice.py:41-47 | a new record is appended and saved with all its fields |
| Common.FirstIndexWhere | xos/synchronizer/helpers.py:72-77 | the first position whose element satisfies the test, and None exactly when no element does (the `objects.get(...)` and `[...][0]` lookups) |
| Helpers.MatchingEntries | xos/synchronizer/helpers.py:30-36 | the entries kept are those of the instance's owner whose serial matches ignoring case, and the first one kept is the first such entry in the store |
| Helpers.ValidateOnu | xos/synchronizer/helpers.py:20-59 | "not found in whitelist" exactly when no owner entry matches; a deferral exactly when one matches and the ONU is unknown; otherwise the first matching entry decides "wrong location" (PON port or datapath differ) versus "validated"; only "validated" is valid |
| Helpers.ValidateOnuIgnoresCase | xos/synchronizer/helpers.py:36 | changing the case of whitelist serial numbers never changes the verdict |
| Helpers.MatchingEntriesIgnoresCase | xos/synchronizer/helpers.py:33-36 | re-cased whitelists yield the same matches, entry for entry, apart from the serial spelling |
| Helpers.LowerCaseWhitelistEntryValidates | xos/synchronizer/test_helpers.py:161-171 | a "brcm1234" entry at the right location validates ONU "BRCM1234" |
| Helpers.GetOnuSn | xos/synchronizer/helpers.py:62-69 | the OLT's serial number for (device, port), raising "Cannot find onu serial number for this event" when it is missing or empty |
| Helpers.GetSiBySn | xos/synchronizer/helpers.py:72-77 | the first instance with exactly that serial number, or an exception exactly when there is none |
| Revalidation.NewValidity | xos/synchronizer/model_policies/model_policy_att_workflow_driver_whitelistentry.py:38-45 | the decision of one loop iteration: the value the instance is given, or None when it is skipped and not saved |
| Revalidation.NewValidityDecides | xos/synchronizer/model_policies/model_policy_att_workflow_driver_whitelistentry.py:38-45 | a pass assigns only "valid" or "invalid" and only a value the instance lacks; an entry update validates only case-insensitive serial matches, an entry delete invalidates only the owner's exact-serial instances, and a re-sync validates exactly the listed serials |
| Revalidation.Revalidated | xos/synchronizer/model_policies/model_policy_att_workflow_driver_service.py:32-41 | after a pass each instance holds what its rule decides for it, and the number of instances is unchanged |
| Revalidation.Saves | xos/synchronizer/model_policies/model_policy_att_workflow_driver_service.py:32-41 | the saves of a pass, one per instance given a new value, in visiting order |
| Revalidation.SavesOnlyDecided | xos/synchronizer/model_policies/model_policy_att_workflow_driver_service.py:32-41 | every save of a pass is a save of `valid` and `no_sync` of an instance that gets a new value |
| Revalidation.SavesAllDecided | xos/synchronizer/model_policies/model_policy_att_workflow_driver_service.py:32-41 | every instance that gets a new value is saved |
| Revalidation.SavesInOrder | xos/synchronizer/model_policies/model_policy_att_workflow_driver_service.py:32-41 | saves come in visiting order, so each instance is saved at most once per pass |
| Revalidation.SavedExactlyWhenDecided | xos/synchronizer/model_policies/model_policy_att_workflow_driver_whitelistentry.py:42-45 | an instance is saved exactly when its `valid` is not already the rule's value |
| Revalidation.NewValiditySettles | xos/synchronizer/model_policies/model_policy_att_workflow_driver_service.py:33-41 | an instance just given its new value needs nothing more under the same rule |
| Revalidation.SaveCoversChange | xos/synchronizer/model_policies/model_policy_att_workflow_driver_whitelistentry.py:44-45 | a pass changes only `valid`, which the save persists, and saves an instance exactly when it changes |
| Revalidation.SecondPassSavesNothing | xos/synchronizer/model_policies/model_policy_att_workflow_driver_service.py:33-41 | a second pass over a pass's result changes nothing and saves nothing |
| Revalidation.NothingToDoSavesNothing | xos/synchronizer/model_policies/model_policy_att_workflow_driver_whitelistentry.py:42-45 | a pass in which no instance needs a new value saves nothing |
| Revalidation.PassStep | xos/synchronizer/model_policies/model_policy_att_workflow_driver_service.py:32 | visiting one more instance extends a pass by that instance's outcome |
| WhitelistEntryPolicy.HandleCreate | xos/synchronizer/model_policies/model_policy_att_workflow_driver_whitelistentry.py:23-24 | creating an entry does exactly what updating it does |
| WhitelistEntryPolicy.HandleUpdate | xos/synchronizer/model_policies/model_policy_att_workflow_driver_whitelistentry.py:26-48 | instances matching the entry's serial ignoring case are validated and saved; then the entry is saved with `backend_need_delete_policy` set; nothing else changes |
| WhitelistEntryPolicy.ValidateMatching | xos/synchronizer/model_policies/model_policy_att_workflow_driver_whitelistentry.py:34-45 | the loop over all instances leaves exactly the pass of `ValidateSerial` behind, with its saves in order |
| WhitelistEntryPolicy.ValidateOne | xos/synchronizer/model_policies/model_policy_att_workflow_driver_whitelistentry.py:38-45 | a non-matching instance is skipped; a matching one not yet valid becomes valid and is saved |
| WhitelistEntryPolicy.HandleDelete | xos/synchronizer/model_policies/model_policy_att_workflow_driver_whitelistentry.py:50-68 | an entry without owner fails the assertion with nothing written; otherwise that owner's instances with exactly that serial are invalidated, then the entry is saved with `backend_need_reap` set |
| WhitelistEntryPolicy.InvalidateMatching | xos/synchronizer/model_policies/model_policy_att_workflow_driver_whitelistentry.py:57-65 | the loop over the filtered instances leaves exactly the pass of `InvalidateSerialOfOwner` behind |
| WhitelistEntryPolicy.InvalidateOne | xos/synchronizer/model_policies/model_policy_att_workflow_driver_whitelistentry.py:57-65 | an instance outside the filter is skipped; one inside it not yet invalid becomes invalid and is saved |
| WhitelistEntryPolicy.UpdateValidatesMatching | xos/synchronizer/model_policies/model_policy_att_workflow_driver_whitelistentry.py:34-45 | after an update a matching instance differs from before only in being valid, a non-matching one is untouched, and an instance is saved exactly when it matched and was not valid |
| WhitelistEntryPolicy.DeleteInvalidatesMatching | xos/synchronizer/model_policies/model_policy_att_workflow_driver_whitelistentry.py:57-65 | after a delete an instance of that owner with exactly that serial differs only in being invalid, every other one is untouched, and saves happen exactly for those that were not invalid |
| WhitelistEntryPolicy.UpdateAndDeleteAreIdempotent | xos/synchronizer/model_policies/model_policy_att_workflow_driver_whitelistentry.py:42-65 | replaying an update or a delete saves nothing |
| WhitelistEntryPolicy.UpdateAndDeleteMatchDifferently | xos/synchronizer/model_policies/model_policy_att_workflow_driver_whitelistentry.py:34-58 | an instance "brcm1234" of owner 2 is validated by updating entry "BRCM1234" of owner 1 but left alone by deleting it |
| ServicePolicy.Whitelist | xos/synchronizer/model_policies/model_policy_att_workflow_driver_service.py:30 | the whitelist holds exactly the lower-cased serials of the service's entries |
| ServicePolicy.HandleUpdate | xos/synchronizer/model_policies/model_policy_att_workflow_driver_service.py:23-41 | the loop over all instances leaves exactly the re-sync pass against the service's whitelist behind, with its saves in order; nothing else changes |
| ServicePolicy.ResyncOne | xos/synchronizer/model_policies/model_policy_att_workflow_driver_service.py:33-41 | the two tests in sequence give an instance its membership value and save it once when that value was missing |
| ServicePolicy.ResyncFollowsWhitelist | xos/synchronizer/model_policies/model_policy_att_workflow_driver_service.py:32-41 | after a re-sync an instance is valid exactly when a service entry matches it ignoring case, invalid otherwise, with no other field changed, and saved exactly when the flag was wrong |
| ServicePolicy.ResyncAgreesWithValidator | xos/synchronizer/model_policies/model_policy_att_workflow_driver_service.py:30-36 | for the service's own instances, the re-sync calls valid exactly those the whitelist validator finds listed |
| ServicePolicy.ResyncIsIdempotent | xos/synchronizer/model_policies/model_policy_att_workflow_driver_service.py:33-41 | a second re-sync with the same whitelist changes and saves nothing |
| SyncServiceInstance.OwnedWithSerial | xos/synchronizer/steps/sync_att_workflow_driver_service_instance.py:34-35 | the filter keeps exactly the entries with that owner and exactly that serial |
| SyncServiceInstance.ValidateInExternalOss | xos/synchronizer/steps/sync_att_workflow_driver_service_instance.py:28-37 | true exactly when an entry of the owner has exactly the instance's serial number |
| SyncServiceInstance.Synced | xos/synchronizer/steps/sync_att_workflow_driver_service_instance.py:47-59 | the synced instance has `no_sync` set, and `valid` is "valid" exactly when the OSS accepts it and "invalid" exactly when it does not |
| SyncServiceInstance.SyncRecord | xos/synchronizer/steps/sync_att_workflow_driver_service_instance.py:44-60 | `valid` becomes "valid" or "invalid" by the OSS check, `no_sync` becomes true, and exactly those two fields are saved |
| SyncServiceInstance.SavedFieldsCoverChange | xos/synchronizer/steps/sync_att_workflow_driver_service_instance.py:47-60 | sync_record changes no field it does not save |
| SyncServiceInstance.OssAcceptedIsListed | xos/synchronizer/steps/sync_att_workflow_driver_service_instance.py:28-37 | an instance the OSS check accepts is listed for the whitelist validator too |
| SyncServiceInstance.OssIsCaseSensitive | xos/synchronizer/steps/sync_att_workflow_driver_service_instance.py:34-35 | a "brcm1234" entry makes the validator accept "BRCM1234" while the OSS check rejects it |
| ServiceInstancePolicy.GetSubscriber | xos/synchronizer/model_policies/model_policy_att_workflow_driver_serviceinstance.py:76-82 | the first subscriber whose ONU serial matches ignoring case, or None exactly when there is none |
| ServiceInstancePolicy.AuthStatus | xos/synchronizer/model_policies/model_policy_att_workflow_driver_serviceinstance.py:86-100 | the table covers exactly the five states; APPROVED alone gives "enabled", DENIED alone "auth-failed", the rest "awaiting-auth" |
| ServiceInstancePolicy.AuthMessagesAreDistinct | xos/synchronizer/model_policies/model_policy_att_workflow_driver_serviceinstance.py:86-100 | each of the five states leaves its own status message |
| ServiceInstancePolicy.Reconciled | xos/synchronizer/model_policies/model_policy_att_workflow_driver_serviceinstance.py:39-57 | `handle_update` as a value: the only failures are the ONU lookup's and the validator's deferral; on success the ONU exists, the subscriber list keeps its length and the instance differs at most in ONU state and status message |
| ServiceInstancePolicy.AfterOnu | xos/synchronizer/model_policies/model_policy_att_workflow_driver_serviceinstance.py:49-57 | after the ONU step: it fails exactly when the ONU is unknown; otherwise the ONU gets the given admin state, the subscriber list keeps its length and the instance changes at most its status message |
| ServiceInstancePolicy.ReconcileWrites | xos/synchronizer/model_policies/model_policy_att_workflow_driver_serviceinstance.py:57 | the saves of a successful update: the ONU first, the subscriber next when there is one, the whole instance last |
| ServiceInstancePolicy.HandleCreate | xos/synchronizer/model_policies/model_policy_att_workflow_driver_serviceinstance.py:35-37 | creating an instance does exactly what updating it does |
| ServiceInstancePolicy.HandleUpdate | xos/synchronizer/model_policies/model_policy_att_workflow_driver_serviceinstance.py:39-57 | fails exactly when the specification does, with nothing written; otherwise the instance, the ONU's admin state and the subscribers are those of `Reconciled`, saved as ONU, then subscriber if any, then the whole instance |
| ServiceInstancePolicy.ValidateOnuState | xos/synchronizer/model_policies/model_policy_att_workflow_driver_serviceinstance.py:59-67 | a deferral propagates with no write; otherwise the verdict's message and ENABLED or DISABLED go onto the instance and the ONU gets the same admin state |
| ServiceInstancePolicy.UpdateOnu | xos/synchronizer/model_policies/model_policy_att_workflow_driver_serviceinstance.py:69-74 | only the admin state of that ONU changes and the ONU is saved; an unknown ONU fails with no write |
| ServiceInstancePolicy.UpdateSubscriber | xos/synchronizer/model_policies/model_policy_att_workflow_driver_serviceinstance.py:84-103 | the table sets the subscriber's status and the instance's message; a state outside it changes neither; the subscriber is saved either way |
| ServiceInstancePolicy.CheckedFollowsVerdict | xos/synchronizer/model_policies/model_policy_att_workflow_driver_serviceinstance.py:43-67 | for AWAITING or ENABLED, a deferral is the result; otherwise the instance's ONU state and the ONU's admin state are both ENABLED when valid and DISABLED when not |
| ServiceInstancePolicy.UncheckedDisablesOnu | xos/synchronizer/model_policies/model_policy_att_workflow_driver_serviceinstance.py:47-49 | any other ONU state ignores the whitelist, keeps the instance's ONU state and disables the ONU |
| ServiceInstancePolicy.AdminStateMatchesOnuState | xos/synchronizer/model_policies/model_policy_att_workflow_driver_serviceinstance.py:43-67 | the ONU ends up ENABLED exactly when the instance's ONU state is ENABLED |
| ServiceInstancePolicy.ReconcileFrame | xos/synchronizer/model_policies/model_policy_att_workflow_driver_serviceinstance.py:39-57 | only the instance's ONU state and status message change, and only the status of the ONU's first subscriber |
| ServiceInstancePolicy.StatusMessageOrder | xos/synchronizer/model_policies/model_policy_att_workflow_driver_serviceinstance.py:52-61 | the authentication message, when there is a subscriber and a known state, overrides the verdict's message, which overrides the old one |
| ServiceInstancePolicy.SubscriberFollowsAuthentication | xos/synchronizer/model_policies/model_policy_att_workflow_driver_serviceinstance.py:84-103 | the ONU's subscriber gets the table's status, or keeps its own for a state outside the table |
| ServiceInstancePolicy.ValidateOnuFrame | xos/synchronizer/helpers.py:30-48 | the verdict depends only on the instance's serial, owner and datapath and on the ONU's PON port |
| ServiceInstancePolicy.MatchingEntriesSameKey | xos/synchronizer/helpers.py:33-36 | the whitelist filter depends only on the instance's serial and owner |
| ServiceInstancePolicy.FinishUpdate | xos/synchronizer/model_policies/model_policy_att_workflow_driver_serviceinstance.py:52-57 | the subscriber step and the final save leave the instance and the subscribers as `AfterOnu` says, and write the subscriber (if any) and then the whole instance |
| ServiceInstancePolicy.GetSubscriberIgnoresStatus | xos/synchronizer/model_policies/model_policy_att_workflow_driver_serviceinstance.py:76-82 | changing a subscriber's status does not change which subscriber is found |
| ServiceInstancePolicy.FirstIndexWhereSamePredicate | xos/synchronizer/model_policies/model_policy_att_workflow_driver_serviceinstance.py:78 | two subscriber lists that agree on which entries match give the same first match |
| ServiceInstancePolicy.ReconcileIsIdempotent | xos/synchronizer/model_policies/model_policy_att_workflow_driver_serviceinstance.py:39-57 | running the policy again on what it saved yields the same instance, ONU admin state and subscribers |
| ServiceInstancePolicy.AfterOnuSettles | xos/synchronizer/model_policies/model_policy_att_workflow_driver_serviceinstance.py:52-55 | the subscriber step repeated on its own result gives the same outcome |
| AuthEvent.GetOnuSn | xos/synchronizer/event_steps/auth_event.py:30-37 | succeeds exactly when the helper lookup does, with the same serial; otherwise raises the step's own message |
| AuthEvent.GetSiBySn | xos/synchronizer/event_steps/auth_event.py:39-44 | the same instance as the helper lookup; a missing instance ends in a NameError for `value` |
| AuthEvent.Authenticated | xos/synchronizer/event_steps/auth_event.py:55-56 | the instance takes the event's authentication state and has `no_sync` set; its serial, `valid` and ONU state are kept |
| AuthEvent.ProcessEvent | xos/synchronizer/event_steps/auth_event.py:46-57 | a failed lookup is the result with nothing written; otherwise that instance gets the event's authentication state and `no_sync`, and exactly those fields are saved |
| AuthEvent.UpdatesInstanceBehindPort | xos/synchronizer/event_steps/auth_event.py:49-50 | the instance updated is the first with exactly the serial the OLT reports for the event's port |
| AuthEvent.SavedFieldsCoverChange | xos/synchronizer/event_steps/auth_event.py:55-57 | the event changes no field it does not save, and changes nothing exactly when the state is already recorded and sync is off |
| AuthEvent.ReplayChangesNothing | xos/synchronizer/event_steps/auth_event.py:55-57 | a replayed event changes nothing |
| DhcpEvent.WithLease | xos/synchronizer/event_steps/dhcp_event.py:42-44 | the instance takes the event's message type, IP and MAC address verbatim; its serial, `valid` and `no_sync` are kept |
| DhcpEvent.ProcessEvent | xos/synchronizer/event_steps/dhcp_event.py:28-46 | a failed lookup is the result with nothing written; otherwise the instance gets the event's message type and addresses, and only the changed fields are saved |
| DhcpEvent.SavesOnlyChangedLeaseFields | xos/synchronizer/event_steps/dhcp_event.py:42-46 | only DHCP state, IP and MAC address can be saved, each exactly when its value changes |
| DhcpEvent.RepeatedEventSavesNothing | xos/synchronizer/event_steps/dhcp_event.py:42-46 | a repeated event saves nothing |
| WorkflowService.NewInstance | xos/synchronizer/models/convenience/attworkflowdriverservice.py:41-44 | a new instance carries the event's serial and datapath and the defaults elsewhere |
| WorkflowService.Find | xos/synchronizer/models/convenience/attworkflowdriverservice.py:35-39 | the first instance with exactly the serial, or None exactly when there is none |
| WorkflowService.ValidateOnu | xos/synchronizer/models/convenience/attworkflowdriverservice.py:31-47 | a found instance only has `no_sync` cleared (datapath kept); otherwise a new one is appended; exactly one save either way |
| WorkflowService.FoundAfterCreate | xos/synchronizer/models/convenience/attworkflowdriverservice.py:35-45 | after a creation the next lookup finds the created instance |
| WorkflowService.FoundStaysFound | xos/synchronizer/models/convenience/attworkflowdriverservice.py:36-37 | clearing `no_sync` keeps the instance found at the same position |
| OnuEvent.Activated | xos/synchronizer/event_steps/onu_event.py:38-41 | the activated instance is ENABLED, has `no_sync` cleared and records the port and the datapath; its serial, `valid` and authentication state are kept |
| OnuEvent.ProcessEvent | xos/synchronizer/event_steps/onu_event.py:31-48 | "activated" finds or creates the instance, sets `no_sync` false, the UNI port, the datapath and ENABLED, and saves the changes once; a bad port number fails with nothing written; "disabled" and other statuses change nothing |
| OnuEvent.ActivationChangesAttachmentOnly | xos/synchronizer/event_steps/onu_event.py:38-42 | an activation changes only `no_sync`, UNI port, datapath and ONU state, each exactly when its value differs |
| OnuEvent.RepeatedActivationSavesNothing | xos/synchronizer/event_steps/onu_event.py:38-42 | a repeated activation saves nothing |
| OnuEvent.UniPortRoundTrip | xos/synchronizer/event_steps/onu_event.py:39 | the UNI port recorded is the number the event's port string spells, with or without whitespace around it |

## Left out

- Common.ParseLong: reads ASCII whitespace and ASCII digits only; Python 2 `long()` on the `unicode` text JSON decoding yields also accepts other Unicode whitespace and other Unicode decimal digits, which the model rejects with a ValueError.
- Common.Lower: lower-cases ASCII letters only; `unicode.lower()` also lower-cases non-ASCII letters, so two serials that differ only in the case of a non-ASCII letter match in the source and not in the model.
- Logging, JSON decoding of event payloads, Kafka topics and the sample Kafka producer: transport only.
- `updated` timestamps and `always_update_timestamp`: a save is recorded by the fields it persists, without time.
- Concurrency, transactions and the ORM's own caching: every operation runs alone on the store.
- `VOLTService.get_onu_sn_from_openflow`: a map from (device id, port number) to serial number, passed in; a missing key stands for a None answer.
- `si.owner.leaf_model`: the owner's leaf-model id is taken to be the instance's `ownerId`.
- The ORM's `objects.get` with several matches: the model takes the first record in store order.
- `objects.all()` and `objects.filter(...)` order: store order.
- WhitelistEntryPolicy.InvalidateMatching: the ORM filter is folded into the loop, which visits every instance and acts only on those the filter would return; the order of the acted-on instances is the same.
- Default field values of a new service instance come from the model definition, which is not part of this model; they are a `template` parameter.
- WorkflowService.ValidateOnu: the wrapper returns nothing; the model returns the position of the saved instance so callers can name it.
- `find_or_create_att_si`, which the ONU step calls, is not defined in the helpers; the model uses the lookup half of the wrapper's find-or-create, without the wrapper's save, so the activated branch saves once, as the ONU-event test expects.
- Argument lists that disagree between files (`validate_onu(si)` against `validate_onu(log, att_si)`, `get_onu_sn` with three arguments in the DHCP step): the model keeps the helpers' logic and leaves the signatures abstract.
- `save_changed_fields` is taken to write nothing when no field changed; a new instance is saved with all fields.
- `get_suscriber_c_tag` always answers None, so the `c_tag` branch of `sync_record` never runs; both are omitted. `delete_record` and the `handle_delete` of the service and service-instance policies do nothing and are omitted.
- The `if not si` checks of the authentication and DHCP steps: the lookup either fails first or returns a record, so the checks never fire; they are omitted.
- The ONU device and subscriber saves persist whole records; the write log records only which record was saved.
