# netbox-zabbix monitoring-readiness core, modelled in Dafny

This project models the core of a NetBox plugin that prepares devices and virtual machines for
monitoring in Zabbix and drives AWX inventory refreshes. It also models the AWX
dynamic-inventory script that reads the plugin's export. The Dafny model covers these parts:

- **Populate engine** (`Utils`, `PopulateProps`). This is `populate_monitoring_fields`.
  - It works on a copy of an object's custom-field data and fills the monitoring fields from the object, its platform, site and role.
  - It writes under two rules, `put_if_empty` and `put_from_source`.
  - It infers the template interface id from the template label.
  - It runs the status machine `Missing Data` / `Not Synced` / `Synced`, or marks `Remove Pending` when monitoring is off.
  - It then validates and saves.
  - The engine is a class `Utils.Work` (the working copy plus the `changed` flag) whose methods are proved against step functions. `Utils.Instance` is the device or VM being populated.
- **Vocabulary resolver** (`Choices`). This is `_choice_value_map` and `_normalize_choice_field_value`: exact then case-insensitive lookup, list and scalar modes, and order-preserving de-duplication.
- **Change router** (`Signals`).
  - The pre-save capture of the old and new status.
  - The `_route_refresh` decision: no refresh, primary refresh or removal refresh.
  - The after-commit queue, and the platform/site cascades.
- **Debounced scheduler and cascades** (`Tasks`).
  - `_awx_cfg` as a record.
  - `schedule_awx_inventory_refresh` as a class `Tasks.Broker`: per-source markers with an expiry, an explicit clock and a job queue.
  - `_process` as a counting loop over objects, and `update_related_for_platform`/`_site`.
- **Inventory export** (`Api`). The helpers of `api/views.py`, `_build_host`, and `AwxInventoryView.get` with its badge filter and summary.
- **Status tabs** (`Tab` for `netbox_zabbix/views.py`, `LegacyTab` for the older `netbox-plugin/views.py`). The rows, the missing labels and the badge of each tab.
- **AWX inventory script** (`AwxInventory`). `env_bool`, `safe`, the host loop that builds `hostvars`, `all.hosts` and the groups (a class `AwxInventory.Inventory`), and the sorted group lists.

`Py` models the Python values involved: None, bool, int, str, list and dict. It also models `str()` (with `repr`'s choice of quote and its escapes for strings inside lists and dicts), truthiness, `strip`/`lower`/`split`/`join`, `int()` parsing and `==` across types. The database, Redis, HTTP and the environment are parameters, as follows:

- the set of defined custom fields, and each field's choice rows and list type: a `Utils.Schema` value;
- the objects' related platform, site, role and primary IPv4 address: `Utils.Sources`;
- the environment: a `map<string, string>`;
- the clock: a field of the broker;
- the monitoring configuration's last sync status and the choice tables: function arguments.

## Model

| member | source | states |
|---|---|---|
| Utils.TruthyFlagInt | netbox-plugin/netbox_zabbix/utils.py:17-22 | an integer is truthy exactly when it is 1 |
| Utils.TruthyFlagContainer | netbox-plugin/netbox_zabbix/utils.py:17-22 | a list or dict is never truthy, since its text starts with a bracket |
| Utils.NumericToken | netbox-plugin/netbox_zabbix/utils.py:22 | a token of digits and '-' is in the truthy set exactly when it is "1" |
| Utils.GetCf | netbox-plugin/netbox_zabbix/utils.py:33-35 | the key's value when present, else the value under "cf_" + key |
| Utils.ToStr | netbox-plugin/netbox_zabbix/utils.py:141-145 | None for None or blank text; otherwise a non-blank, already-trimmed, non-empty string |
| Utils.ToListStr | netbox-plugin/netbox_zabbix/utils.py:156-161 | None gives []; a list gives at most as many trimmed non-blank strings; text gives non-blank pieces free of commas and newlines |
| Utils.PutIfEmptyStep | netbox-plugin/netbox_zabbix/utils.py:189-197 | writes only `key`, and only when it is defined and empty and the value is non-blank; never writes or leaves an empty value; `changed` rises exactly when the data changes |
| Utils.PutFromSourceStep | netbox-plugin/netbox_zabbix/utils.py:199-210 | writes only `key`, only when defined and (empty or `overwrite`) with a non-blank value; then the field holds that value; `changed` rises exactly when the stored value differs; never clears |
| Utils.DisableStep | netbox-plugin/netbox_zabbix/utils.py:213-217 | at most one write, to `zbp_status` |
| Utils.VisibleNameStep | netbox-plugin/netbox_zabbix/utils.py:240-244 | at most one write, to `zbp_vname` |
| Utils.HostIpStep | netbox-plugin/netbox_zabbix/utils.py:247-252 | at most one write, to `zbp_int_ip` |
| Utils.ReverseLookup | netbox-plugin/netbox_zabbix/utils.py:264-265 | finds a label exactly when the value is in the vocabulary's range, and the label maps to it |
| Utils.ReverseLookupLast | netbox-plugin/netbox_zabbix/utils.py:264 | the inverted dict keeps the last label written for a value |
| Utils.ReverseLookupRoundTrip | netbox-plugin/netbox_zabbix/utils.py:264-265 | looking the found label up again gives back the value |
| Utils.RevLabel | netbox-plugin/netbox_zabbix/utils.py:259-265 | raises exactly when the stored value is a truthy list or dict (unhashable); a label found maps to the stored string |
| Utils.RevLabelNonEmptyVocabulary | netbox-plugin/netbox_zabbix/utils.py:259-265 | with a non-empty vocabulary the normalised value is never unhashable |
| Utils.TemplateNameStep | netbox-plugin/netbox_zabbix/utils.py:258-269 | on success, at most one write, to `zbp_pri_template_name` |
| Utils.InferIfaceId | netbox-plugin/netbox_zabbix/utils.py:290-299 | always "1" to "4"; "snmp" in the label wins and gives "2"; "1" exactly when none of snmp/ipmi/jmx occurs |
| Utils.InterfaceIdValue | netbox-plugin/netbox_zabbix/utils.py:272-299 | an explicit truthy platform id is used as is; otherwise any value is an inferred "1" to "4" |
| Utils.IfaceNameForInt | netbox-plugin/netbox_zabbix/utils.py:303-309 | the interface name of an integer id is `IFACE_LABELS[i]` for 1..4 and none otherwise |
| Utils.LabelOfInt | netbox-plugin/netbox_zabbix/utils.py:11 | `IFACE_LABELS.get(i)` is defined exactly for 1..4 |
| Utils.IfaceNameForInferred | netbox-plugin/netbox_zabbix/utils.py:290-309 | an inferred id always has an interface name |
| Utils.InterfaceNameStep | netbox-plugin/netbox_zabbix/utils.py:303-313 | at most one write, to `zbp_pri_template_int_name` |
| Utils.ExtraTemplatesStep | netbox-plugin/netbox_zabbix/utils.py:331-338 | with `zb_extra_templates` present it is rewritten and `changed` is set; absent, nothing happens |
| Utils.DefinedOnly | netbox-plugin/netbox_zabbix/utils.py:360 | keeps exactly the keys that are defined fields |
| Utils.DesiredStatus | netbox-plugin/netbox_zabbix/utils.py:364-369 | complete and "Synced" stays "Synced"; complete otherwise is "Not Synced"; incomplete is "Missing Data" |
| Utils.DesiredStatusStable | netbox-plugin/netbox_zabbix/utils.py:364-372 | the machine applied to its own answer gives the same answer |
| Utils.StatusStep | netbox-plugin/netbox_zabbix/utils.py:364-372 | at most one write, to `zbp_status` |
| Utils.Work.constructor | netbox-plugin/netbox_zabbix/utils.py:177-178 | the working copy is the object's data and `changed` is false |
| Utils.Work.Set | netbox-plugin/netbox_zabbix/utils.py:196-197 | `cf[key] = v` and `changed` is set |
| Utils.Work.PutIfEmpty | netbox-plugin/netbox_zabbix/utils.py:189-197 | the new state is `PutIfEmptyStep` of the old |
| Utils.Work.PutFromSource | netbox-plugin/netbox_zabbix/utils.py:199-210 | the new state is `PutFromSourceStep` of the old |
| Utils.Work.Disable | netbox-plugin/netbox_zabbix/utils.py:213-217 | the new state is `DisableStep` of the old |
| Utils.Work.VisibleName | netbox-plugin/netbox_zabbix/utils.py:239-244 | the new state is `VisibleNameStep` of the old |
| Utils.Work.HostIp | netbox-plugin/netbox_zabbix/utils.py:246-252 | the new state is `HostIpStep` of the old |
| Utils.Work.TemplateName | netbox-plugin/netbox_zabbix/utils.py:258-269 | the error leaves the state alone; otherwise the new state is `TemplateNameStep`'s |
| Utils.Work.InterfaceId | netbox-plugin/netbox_zabbix/utils.py:272-299 | returns `InterfaceIdValue` of the current state |
| Utils.Work.InterfaceName | netbox-plugin/netbox_zabbix/utils.py:303-313 | the new state is `InterfaceNameStep` of the old |
| Utils.Work.Placement | netbox-plugin/netbox_zabbix/utils.py:315-328 | the new state is `PlacementStep` of the old |
| Utils.Work.ExtraTemplates | netbox-plugin/netbox_zabbix/utils.py:331-338 | the new state is `ExtraTemplatesStep` of the old |
| Utils.Work.Status | netbox-plugin/netbox_zabbix/utils.py:340-372 | the new state is `StatusStep` of the old |
| Utils.Instance.constructor | netbox-plugin/netbox_zabbix/utils.py:167-185 | the object holds its id, sources, data and stored row, with no captured statuses |
| Utils.Instance.Finish | netbox-plugin/netbox_zabbix/utils.py:375-393 | data is replaced only when changed; a failed validation raises and leaves the row; otherwise returns `changed` and stores the data when changed and saving |
| Utils.Instance.Populate | netbox-plugin/netbox_zabbix/utils.py:167-393 | the whole call follows `PopulateSpec`: its error leaves data and row untouched; otherwise data, row and result are as `Finish` says for the final working copy |
| PopulateProps.KeysDisjoint | netbox-plugin/netbox_zabbix/utils.py:239-372 | the template, interface and final blocks write disjoint fields |
| PopulateProps.ReadKeysUnmanaged | netbox-plugin/netbox_zabbix/utils.py:187 | the keys populate reads for `mon_req`, `zb_mon_env` and the IP override are never keys it writes |
| PopulateProps.PlacementMoves | netbox-plugin/netbox_zabbix/utils.py:315-328 | the placement block writes only the five placement fields |
| PopulateProps.TemplateStepsMoves | netbox-plugin/netbox_zabbix/utils.py:239-269 | the name, IP and template block writes only its four fields |
| PopulateProps.InterfaceStepsMoves | netbox-plugin/netbox_zabbix/utils.py:271-313 | the interface block writes only its two fields |
| PopulateProps.FinalStepsMoves | netbox-plugin/netbox_zabbix/utils.py:315-372 | placement, extra templates and status write only their fields |
| PopulateProps.PopulateTouchesOnlyMonitoringFields | netbox-plugin/netbox_zabbix/utils.py:167-372 | a successful run drops no key, changes only managed monitoring fields, and reports `changed` whenever the data differs |
| PopulateProps.UnchangedMeansUntouched | netbox-plugin/netbox_zabbix/utils.py:375-393 | `changed` false means the data is exactly the original |
| PopulateProps.DisabledOnlyMarksRemoval | netbox-plugin/netbox_zabbix/utils.py:187-235 | monitoring off: never fails; the data is the original or the original with `zbp_status` = "Remove Pending"; a defined status ends "Remove Pending"; `changed` iff the data changed |
| PopulateProps.PopulateErrorCause | netbox-plugin/netbox_zabbix/utils.py:258-265 | populate fails only with monitoring on, an empty template vocabulary and a truthy list or dict as the platform template |
| PopulateProps.ExtraTemplatesForceChange | netbox-plugin/netbox_zabbix/utils.py:331-338 | with monitoring on and `zb_extra_templates` present the call always reports a change |
| PopulateProps.StatusOutcome | netbox-plugin/netbox_zabbix/utils.py:340-372 | completeness is unaffected by the status write; the new status is "Synced", "Missing Data" or "Not Synced" exactly in the three cases of the machine |
| PopulateProps.StatusNotRequired | netbox-plugin/netbox_zabbix/utils.py:347-362 | `zbp_status` is never among the fields required for completeness |
| PopulateProps.CompleteIgnoresStatus | netbox-plugin/netbox_zabbix/utils.py:347-362 | writing the status does not change completeness |
| PopulateProps.StatusStepStable | netbox-plugin/netbox_zabbix/utils.py:364-372 | a second run of the machine on its output writes nothing |
| PopulateProps.StatusSettled | netbox-plugin/netbox_zabbix/utils.py:364-372 | the machine leaves alone data that already holds its answer under the same completeness |
| PopulateProps.PutFromSourceSettled | netbox-plugin/netbox_zabbix/utils.py:199-210 | a field already holding what `put_from_source` wrote is left alone |
| PopulateProps.VisibleNameSettled | netbox-plugin/netbox_zabbix/utils.py:240-244 | a visible name already written is left alone |
| PopulateProps.HostIpSettled | netbox-plugin/netbox_zabbix/utils.py:247-252 | an IP already written is left alone |
| PopulateProps.TemplateNameSettled | netbox-plugin/netbox_zabbix/utils.py:258-269 | a template name already written is left alone |
| PopulateProps.InterfaceIdSameTemplate | netbox-plugin/netbox_zabbix/utils.py:272-299 | the interface id depends on the data only through the template name |
| PopulateProps.InterfaceNameSettled | netbox-plugin/netbox_zabbix/utils.py:303-313 | an interface name already written is left alone |
| PopulateProps.PlacementSettled | netbox-plugin/netbox_zabbix/utils.py:315-328 | placement fields already holding what was written are left alone |
| PopulateProps.TemplateStepsSettled | netbox-plugin/netbox_zabbix/utils.py:239-269 | the template block run on its own output writes nothing |
| PopulateProps.InterfaceStepsSettled | netbox-plugin/netbox_zabbix/utils.py:271-313 | the interface block run on its own output writes nothing |
| PopulateProps.FinalStepsSettled | netbox-plugin/netbox_zabbix/utils.py:315-372 | without extra templates the final block run on its own output writes nothing |
| PopulateProps.EnabledRunSettled | netbox-plugin/netbox_zabbix/utils.py:167-372 | with monitoring on and no extra templates, a second run returns its input unchanged with `changed` false |
| PopulateProps.PopulateIdempotent | netbox-plugin/netbox_zabbix/utils.py:167-372 | without `zb_extra_templates` (and with a non-blank IPv4 text) populate is idempotent: the second call changes nothing and reports no change |
| Choices.Lookup | netbox-plugin/netbox_zabbix/utils.py:105 | `mapping.get(s)`: found exactly when the key is present; the value is the key's and lies in the vocabulary's range |
| Choices.LookupDistinct | netbox-plugin/netbox_zabbix/utils.py:105 | a key's value is the one paired with it |
| Choices.Put | netbox-plugin/netbox_zabbix/utils.py:76-78 | `m[k] = v`: the pair is present, only pairs with other keys survive, keys stay distinct |
| Choices.BuildMappingShape | netbox-plugin/netbox_zabbix/utils.py:64-91 | the built dict has distinct non-empty keys, each coming from a choice row's value or label |
| Choices.BuildMappingKeys | netbox-plugin/netbox_zabbix/utils.py:72-90 | every non-blank stripped value and label of a row becomes a key |
| Choices.CaseInsensitive | netbox-plugin/netbox_zabbix/utils.py:107 | found exactly when some key matches case-insensitively; the result is in range |
| Choices.CaseInsensitiveFirst | netbox-plugin/netbox_zabbix/utils.py:107 | the result is the value of the first such key in dict order |
| Choices.Canonical | netbox-plugin/netbox_zabbix/utils.py:105-109 | a non-empty result is a vocabulary value |
| Choices.Resolve | netbox-plugin/netbox_zabbix/utils.py:101-111 | a resolved token is a non-empty vocabulary value |
| Choices.ResolveAll | netbox-plugin/netbox_zabbix/utils.py:99-111 | every collected value is non-empty and in the vocabulary |
| Choices.DedupSpec | netbox-plugin/netbox_zabbix/utils.py:112-117 | no duplicates, the same members, first-seen order kept |
| Choices.ToValsSpec | netbox-plugin/netbox_zabbix/utils.py:99-118 | `to_vals`: no duplicates, only non-empty vocabulary values, exactly the resolved tokens, in first-seen order |
| Choices.ToValsLoop | netbox-plugin/netbox_zabbix/utils.py:99-118 | the two loops compute `ToVals` |
| Choices.NormalizeChoice | netbox-plugin/netbox_zabbix/utils.py:94-135 | the method computes `Normalize` |
| Choices.NormalizeEmptyVocabulary | netbox-plugin/netbox_zabbix/utils.py:95-97 | with an empty vocabulary the raw value comes back unchanged |
| Choices.NormalizeListMode | netbox-plugin/netbox_zabbix/utils.py:120-125 | list mode: None gives []; otherwise the list of `to_vals` over the items or the comma/newline tokens, duplicate-free, in range, exactly the resolved tokens |
| Choices.NormalizeScalarMode | netbox-plugin/netbox_zabbix/utils.py:127-135 | scalar mode: None gives None; a list gives its first resolved value or None; blank gives None; an exact match wins over a case-insensitive one; no match gives None |
| Choices.ResolveCanonical | netbox-plugin/netbox_zabbix/utils.py:105 | a canonical value resolves to itself |
| Choices.StrList | netbox-plugin/netbox_zabbix/utils.py:125 | the list holds the strings in order |
| Choices.ResolveAllOfCanonical | netbox-plugin/netbox_zabbix/utils.py:99-111 | a list of canonical values resolves to itself |
| Choices.DedupOfNoDup | netbox-plugin/netbox_zabbix/utils.py:112-117 | de-duplicating a duplicate-free list changes nothing |
| Choices.NormalizeListIdempotent | netbox-plugin/netbox_zabbix/utils.py:120-124 | over a consistent, stripped vocabulary, normalising a normalised list changes nothing |
| Choices.BuildMappingConsistent | netbox-plugin/netbox_zabbix/utils.py:64-91 | when no label shadows another value, every value maps to itself |
| Choices.BuildMappingStripped | netbox-plugin/netbox_zabbix/utils.py:73-90 | keys and values of the built dict are stripped |
| Choices.BuildMappingIdempotent | netbox-plugin/netbox_zabbix/utils.py:64-125 | for a vocabulary built from rows whose labels do not shadow values, list normalisation is idempotent |
| Py.ReprStrRoundTrip | netbox-plugin/netbox_zabbix/utils.py:144 | `repr` of a string inside a list or dict: quoted with `"` exactly when the text holds `'` but no `"`, otherwise with `'`, and the escaped inside reads back as the string (so distinct strings print distinctly) |
| Py.UnescapeEscape | netbox-plugin/netbox_zabbix/utils.py:144 | the escapes `repr` writes (backslash, quote, `\n`, `\r`, `\t`, `\xhh`) read back as the original text |
| Py.ReprStrPlain | netbox-plugin/netbox_zabbix/utils.py:144 | text with no quote, backslash or escaped character is put between `'` unchanged |
| Py.EmptyLikeIsFalsy | netbox-plugin/netbox_zabbix/utils.py:193 | `in (None, "", [], {})` implies falsy; the two differ exactly on False and 0 |
| Py.ParseIntOfIntToStr | netbox-plugin/netbox_zabbix/utils.py:306 | `int(str(i)) == i` |
| Py.Strip | netbox-plugin/netbox_zabbix/utils.py:144 | `str.strip()`: no longer than the input, and no whitespace at either end |
| Py.StripIdempotent | netbox-plugin/netbox_zabbix/utils.py:144 | stripping twice is stripping once |
| Py.Lower | netbox-plugin/netbox_zabbix/utils.py:291 | `str.lower()` maps each character and keeps the length |
| Py.Split | netbox-plugin/netbox_zabbix/utils.py:161 | `str.split(sep)` gives at least one piece, none containing the separator |
| Py.JoinSplit | netbox-plugin/netbox_zabbix/utils.py:161 | joining the pieces of a split with the separator gives back the text |
| Py.NatToStrRoundTrip | netbox-plugin/netbox_zabbix/utils.py:306 | the decimal text of a natural number reads back as that number |
| Py.PyEqStr | netbox-plugin/netbox_zabbix/utils.py:367 | Python `==` against a string holds exactly for that same string |
| Py.PyEqNone | netbox-plugin/netbox_zabbix/utils.py:193 | Python `==` against None holds exactly for None |
| Signals.NewStatusFor | netbox-plugin/netbox_zabbix/signals.py:31-33 | truthy exactly when one of the two keys is; a truthy `zbp_status` is taken first; None only when `cf_zbp_status` is None |
| Signals.OldStatusFor | netbox-plugin/netbox_zabbix/signals.py:20-28 | None for an unsaved object or a missing row; otherwise the stored row's status |
| Signals.PopulatedData | netbox-plugin/netbox_zabbix/signals.py:41 | a failed populate leaves the data; otherwise the data is the final working copy |
| Signals.PreSave | netbox-plugin/netbox_zabbix/signals.py:36-62 | old status captured first; data populated in memory with the row untouched; the new status is captured only when populate succeeds |
| Signals.Route | netbox-plugin/netbox_zabbix/signals.py:80-137 | no configuration, no refresh; a removal refresh always names the non-zero removal source |
| Signals.RouteCases | netbox-plugin/netbox_zabbix/signals.py:101-137 | equal statuses: nothing; monitoring off or "Remove Pending": removal refresh iff the removal id is non-zero; otherwise primary refresh iff the new status is one of the three |
| Signals.RouteFallback | netbox-plugin/netbox_zabbix/signals.py:86-87 | a missing captured old status reads as None and a missing new status is read from the data, so `RouteCases` covers those calls too |
| Signals.RouteWithoutCapture | netbox-plugin/netbox_zabbix/signals.py:86-87 | with nothing captured and no status in the data, nothing is refreshed |
| Signals.MonFlagAgrees | netbox-plugin/netbox_zabbix/signals.py:85 | without `cf_`-prefixed copies the router's flag agrees with populate's `mon_enabled` |
| Signals.MonFlagDiffers | netbox-plugin/netbox_zabbix/signals.py:85 | a concrete data map where populate sees monitoring on but the router sees it off |
| Signals.PopulateKeepsMonFlag | netbox-plugin/netbox_zabbix/signals.py:41-42 | populate never changes the router's flag |
| Signals.PopulatedStatus | netbox-plugin/netbox_zabbix/signals.py:41-42 | after populate the status is one of the three primary statuses, or "Remove Pending" with monitoring off |
| Signals.MonitoredSaveRefreshesPrimary | netbox-plugin/netbox_zabbix/signals.py:36-137 | a monitored save refreshes the primary source exactly when the status changed |
| Signals.MonFlagImpliesEnabled | netbox-plugin/netbox_zabbix/signals.py:85 | the router's flag implies populate's `mon_enabled` |
| Signals.UnmonitoredSaveRefreshesRemoval | netbox-plugin/netbox_zabbix/signals.py:36-120 | an unmonitored save whose old status was not "Remove Pending" refreshes the removal source iff its id is non-zero |
| Signals.Deferred | netbox-plugin/netbox_zabbix/signals.py:114-129 | none exactly for no refresh; a primary refresh defers one call with no source; a removal refresh defers one call naming the removal source |
| Signals.RunAll | netbox-plugin/netbox_zabbix/signals.py:65-77 | running the deferred calls keeps the clock and only appends jobs, at most one per call |
| Signals.CommitRefreshesEachSourceOnce | netbox-plugin/netbox_zabbix/signals.py:65-77 | after a commit each source has at most one new refresh job |
| Signals.CommitQueue.constructor | netbox-plugin/netbox_zabbix/signals.py:65-77 | an empty queue |
| Signals.CommitQueue.PostSave | netbox-plugin/netbox_zabbix/signals.py:140-153 | appends the routed call, if any |
| Signals.CommitQueue.Commit | netbox-plugin/netbox_zabbix/signals.py:71-77 | empties the queue; the broker ends as `RunAll` over the queued calls |
| Signals.CascadeQueue.constructor | netbox-plugin/netbox_zabbix/signals.py:159-178 | no jobs |
| Signals.CascadeQueue.PlatformSaved | netbox-plugin/netbox_zabbix/signals.py:159-169 | appends one platform cascade |
| Signals.CascadeQueue.SiteSaved | netbox-plugin/netbox_zabbix/signals.py:172-178 | appends one site cascade |
| Tasks.IntSetting | netbox-plugin/netbox_zabbix/tasks.py:26-28 | unset or empty gives the default; otherwise `int()` of the text |
| Tasks.IntSettingReads | netbox-plugin/netbox_zabbix/tasks.py:26-28 | a setting holding `str(n)` reads back as n |
| Tasks.AwxConfigFrom | netbox-plugin/netbox_zabbix/tasks.py:21-29 | refused exactly when a numeric setting does not read as an integer; otherwise the base is the setting with only its trailing '/' cut off, the token is the setting when set, verification follows `AWX_VERIFY` (on when unset), and the two source ids and the debounce are the settings as read by `IntSetting` |
| Tasks.BaseSetting | netbox-plugin/netbox_zabbix/tasks.py:23 | a prefix of the setting, not ending in '/', with nothing but '/' cut off |
| Tasks.VerifySetting | netbox-plugin/netbox_zabbix/tasks.py:25 | verification is on when `AWX_VERIFY` is unset |
| Tasks.ConfigDefaults | netbox-plugin/netbox_zabbix/tasks.py:21-29 | with nothing set: empty base, no token, verify on, ids 0, debounce 60 |
| Tasks.ConfigErrorCause | netbox-plugin/netbox_zabbix/tasks.py:26-28 | the configuration fails exactly when one of the three integer settings is non-empty and not an integer |
| Tasks.ResolveSource | netbox-plugin/netbox_zabbix/tasks.py:55 | None or 0 gives the configured id; any other id is kept |
| Tasks.Ttl | netbox-plugin/netbox_zabbix/tasks.py:64 | `max(5, debounce)`: at least 5 and at least the debounce, and one of the two |
| Tasks.DebounceKeyInjective | netbox-plugin/netbox_zabbix/tasks.py:61 | different sources have different marker keys |
| Tasks.ScheduleSpec | netbox-plugin/netbox_zabbix/tasks.py:50-70 | clock kept; only a dispatch changes state; config error iff no configuration; skipped iff base, token or id missing; debounced only under a live marker; a dispatch needs no live marker, sets exactly its marker to expire at now + TTL and enqueues one refresh |
| Tasks.DebouncedWhileLive | netbox-plugin/netbox_zabbix/tasks.py:63-70 | a live marker debounces and changes nothing |
| Tasks.BurstDispatchesOnce | netbox-plugin/netbox_zabbix/tasks.py:60-70 | a second request right after a dispatch is debounced; otherwise it repeats the first outcome |
| Tasks.QuietForTtl | netbox-plugin/netbox_zabbix/tasks.py:64 | every request within the TTL after a dispatch is debounced |
| Tasks.DispatchesAgainAfterTtl | netbox-plugin/netbox_zabbix/tasks.py:64 | once the TTL has passed the same request dispatches again |
| Tasks.SourcesIndependent | netbox-plugin/netbox_zabbix/tasks.py:61 | scheduling one source leaves every other source's marker as it was |
| Tasks.ScheduleAsWritten | netbox-plugin/netbox_zabbix/tasks.py:50-70 | the code as written: the same state change as `ScheduleSpec`, and returns normally only on a dispatch |
| Tasks.SkipRaisesNameError | netbox-plugin/netbox_zabbix/tasks.py:56-58 | without configuration the skip path raises `NameError` |
| Tasks.DebounceRaisesNameError | netbox-plugin/netbox_zabbix/tasks.py:69-70 | a debounced request raises `NameError` |
| Tasks.Broker.constructor | netbox-plugin/netbox_zabbix/tasks.py:60 | no markers and no jobs at the given time |
| Tasks.Broker.Tick | netbox-plugin/netbox_zabbix/tasks.py:64 | only the clock advances |
| Tasks.Broker.SetNx | netbox-plugin/netbox_zabbix/tasks.py:63 | creates the key exactly when it is not live |
| Tasks.Broker.Expire | netbox-plugin/netbox_zabbix/tasks.py:64 | gives a live key its expiry |
| Tasks.Broker.Schedule | netbox-plugin/netbox_zabbix/tasks.py:50-70 | outcome and new state are `ScheduleSpec` of the configuration read from the environment |
| Tasks.Broker.ScheduleWith | netbox-plugin/netbox_zabbix/tasks.py:54-70 | outcome and new state are `ScheduleSpec` of the given configuration |
| Tasks.MonReqQueryEnabled | netbox-plugin/netbox_zabbix/tasks.py:73-75 | an object the cascade query selects has monitoring enabled for populate |
| Tasks.RunOf | netbox-plugin/netbox_zabbix/tasks.py:82-87 | an error or no change keeps data and row; a change saves the data |
| Tasks.Tally | netbox-plugin/netbox_zabbix/tasks.py:79-88 | updated + errors never exceeds the number of objects |
| Tasks.TallyCounts | netbox-plugin/netbox_zabbix/tasks.py:82-87 | no errors iff every object succeeded; all updated iff every object changed |
| Tasks.TallyAppend | netbox-plugin/netbox_zabbix/tasks.py:103-105 | counts of two passes add up |
| Tasks.ProcessOne | netbox-plugin/netbox_zabbix/tasks.py:83 | one object is populated and saved as `RunOf` says |
| Tasks.Process | netbox-plugin/netbox_zabbix/tasks.py:78-88 | the counts are `Tally` of every object's run; each object ends with its run's data and row |
| Tasks.UpdateRelated | netbox-plugin/netbox_zabbix/tasks.py:91-105 | missing platform or site: zero counts, every object's data and row unchanged; otherwise the counts are the sum of the device and VM passes, bounded by the object count, and every device and VM ends with the data and row of its own run |
| Tasks.UpdateRelatedOnePass | netbox-plugin/netbox_zabbix/tasks.py:103-105 | the two passes count as one pass over devices then virtual machines |
| Api.ApiTruthyAgrees | netbox-plugin/netbox_zabbix/api/views.py:17-22 | `_truthy` accepts exactly what `utils.truthy` accepts |
| Api.Alias | netbox-plugin/netbox_zabbix/api/views.py:29 | strips a "cf_" prefix, else adds one |
| Api.ApiGetCf | netbox-plugin/netbox_zabbix/api/views.py:25-30 | no object gives the default; a present key gives its value; anything else found is a value of the data |
| Api.ApiGetCfPlainKey | netbox-plugin/netbox_zabbix/api/views.py:25-30 | for a plain key it agrees with the engine's `_get_cf` |
| Api.ApiGetCfPrefixedKey | netbox-plugin/netbox_zabbix/api/views.py:25-30 | for a "cf_" key it can differ from the engine's lookup |
| Api.LabelAndId | netbox-plugin/netbox_zabbix/api/views.py:33-45 | empty map: (None, None); a digit raw fills the id only when none is set; another raw becomes the label only when none is set |
| Api.ChoiceLabel | netbox-plugin/netbox_zabbix/api/views.py:48-71 | None or "" gives None; a label found is the table's for the value's text |
| Api.IntOf | netbox-plugin/netbox_zabbix/api/views.py:75-77 | `int(v)` for ints and text; None and containers fail |
| Api.IfaceLabel | netbox-plugin/netbox_zabbix/api/views.py:74-79 | None gives ""; an integer 1..4 gives its label; anything else its text |
| Api.IfaceLabelAgrees | netbox-plugin/netbox_zabbix/api/views.py:74-79 | for a non-bool id, the export's label agrees with the engine's interface name where that exists, else is the id's text |
| Api.BoolLabel | netbox-plugin/netbox_zabbix/api/views.py:74-79 | True is labelled "Agent" and False "False", while the engine gives bools no name |
| Api.CsvItems | netbox-plugin/netbox_zabbix/api/views.py:88 | every item is non-empty, trimmed and free of commas and newlines |
| Api.AsList | netbox-plugin/netbox_zabbix/api/views.py:82-88 | None gives []; a list gives the text of each element; text gives clean CSV items |
| Api.CsvItemsOfJoined | netbox-plugin/netbox_zabbix/api/views.py:88 | splitting clean items joined with ", " gives them back |
| Api.CsvItemsStable | netbox-plugin/netbox_zabbix/api/views.py:88 | re-splitting the joined items gives the same items |
| Api.MissingRequired | netbox-plugin/netbox_zabbix/api/views.py:91-92 | exactly the keys with empty values; empty iff every value is non-empty (order: `MissingRequiredInOrder`) |
| Api.MissingRequiredInOrder | netbox-plugin/netbox_zabbix/api/views.py:91-92 | the missing keys of a dict follow its order: those of the first entries, then those of the rest |
| Api.MissingRequiredOne | netbox-plugin/netbox_zabbix/api/views.py:91-92 | a single entry is missing exactly when its value is empty |
| Api.BadgeFor | netbox-plugin/netbox_zabbix/api/views.py:95-102 | "ok" iff complete and the status reads "synced"; "caution" iff complete otherwise; "fail" iff incomplete |
| Api.Required | netbox-plugin/netbox_zabbix/api/views.py:193-205 | the eleven required fields |
| Api.VisibleName | netbox-plugin/netbox_zabbix/api/views.py:110-113 | the override when truthy; else "name - description" when the description is truthy; else None |
| Api.HostIp | netbox-plugin/netbox_zabbix/api/views.py:133-137 | the override when truthy; else the primary IPv4 address when there is one |
| Api.PrimaryTemplate | netbox-plugin/netbox_zabbix/api/views.py:116-130 | the id from `_label_and_id`; the label falls back to the choice table only when missing and the id is set |
| Api.ExtraTemplates | netbox-plugin/netbox_zabbix/api/views.py:140-146 | one entry per listed id, in order, with that id and its choice label when the label is truthy, else None |
| Api.RoleSla | netbox-plugin/netbox_zabbix/api/views.py:168-175 | no role gives None; a truthy role attribute is used first; otherwise the role's `sla_report_code` custom field |
| Api.Placement | netbox-plugin/netbox_zabbix/api/views.py:154-166 | the site's `cf_` field first, then the site's plain field, then the object's `cf_` field, then the object's plain field; the first truthy one wins |
| Api.Judged | netbox-plugin/netbox_zabbix/api/views.py:192-208 | `missing`, `complete` and `badge` are computed from the required fields, nothing else changes |
| Api.BuildHost | netbox-plugin/netbox_zabbix/api/views.py:108-246 | kind, id and name; primary template, interface type and extra templates as their helpers give them; proxy and group with the site first; environment, OS, site, device SLA, NetBox status and zabbix status from their sources; `missing` exactly the empty required fields; complete iff none; the badge from `_badge_for`; interface label, visible name and IP as the helpers say |
| Api.EmittedBadges | netbox-plugin/netbox_zabbix/api/views.py:262-271 | every emitted host has one of the three badges |
| Api.Emit | netbox-plugin/netbox_zabbix/api/views.py:262-271 | at most one host per object; when every built host carries a valid badge, so does every emitted one |
| Api.EmitExactly | netbox-plugin/netbox_zabbix/api/views.py:262-271 | every monitored object is emitted, and every emitted host is a monitored object's |
| Api.EmitStep | netbox-plugin/netbox_zabbix/api/views.py:263-265 | one more object adds its host exactly when it is monitored |
| Api.KeepBadge | netbox-plugin/netbox_zabbix/api/views.py:276 | keeps as many hosts as carry the badge, all carrying it (order: `KeepBadgeInOrder`) |
| Api.KeepBadgeExactly | netbox-plugin/netbox_zabbix/api/views.py:276 | keeps exactly the hosts carrying the badge |
| Api.KeepBadgeInOrder | netbox-plugin/netbox_zabbix/api/views.py:276 | the filter keeps the hosts in order: those kept from the first hosts, then those kept from the rest |
| Api.KeepBadgeOne | netbox-plugin/netbox_zabbix/api/views.py:276 | a single host is kept exactly when it carries the badge |
| Api.FilterBadge | netbox-plugin/netbox_zabbix/api/views.py:273-276 | a wanted badge outside the three keeps every host; one of the three keeps as many hosts as carry it, all carrying it (order: `FilterBadgeInOrder`) |
| Api.FilterBadgeInOrder | netbox-plugin/netbox_zabbix/api/views.py:273-276 | the filter, applied or not, keeps the response's order: filtering a concatenation is the concatenation of the filtered parts |
| Api.CountBadge | netbox-plugin/netbox_zabbix/api/views.py:281-283 | never more than the hosts |
| Api.SummaryAddsUp | netbox-plugin/netbox_zabbix/api/views.py:279-284 | ok + caution + fail == count |
| Api.KeptCounts | netbox-plugin/netbox_zabbix/api/views.py:276-284 | after filtering on a badge, only that badge is counted, once per host |
| Api.AppendHosts | netbox-plugin/netbox_zabbix/api/views.py:262-271 | one pass appends exactly the emitted hosts, in order |
| Api.Inventory | netbox-plugin/netbox_zabbix/api/views.py:258-285 | devices then VMs, filtered only for a valid badge; the summary counts them and adds up; a filtered list holds only that badge |
| Tab.IsEmptyVersusEmptyLike | netbox-plugin/netbox_zabbix/views.py:25-30 | `_is_empty` differs from the engine's emptiness exactly on blank text and `{}`; 0 and False are not empty |
| Tab.ChoiceLabelFromSet | netbox-plugin/netbox_zabbix/views.py:32-42 | None iff no set or no matching pair; otherwise the label of the first matching pair |
| Tab.FirstPair | netbox-plugin/netbox_zabbix/views.py:39-41 | the index of the first pair whose value matches, with no match before it |
| Tab.TabVisibleName | netbox-plugin/netbox_zabbix/views.py:52-54 | the override; else "name - descr" only when both are truthy; else None |
| Tab.TabIfaceName | netbox-plugin/netbox_zabbix/views.py:63-64 | None for a None id; a name only from the string-keyed table, and a key of that table gives its name |
| Tab.TableKeys | netbox-plugin/netbox_zabbix/views.py:13 | the tab's label table has exactly the keys "1" to "4" |
| Tab.TabIfaceNameInt | netbox-plugin/netbox_zabbix/views.py:13 | an integer id is named exactly for 1..4, as the engine names it |
| Tab.PaddedIdDiffers | netbox-plugin/netbox_zabbix/views.py:64 | a text id with a leading space gets a name from the engine but none on the tab |
| Tab.TabIp | netbox-plugin/netbox_zabbix/views.py:66-70 | the override unless empty; else the primary IPv4 address when present |
| Tab.PresentTexts | netbox-plugin/netbox_zabbix/views.py:74 | the non-None elements' texts, none when all are None (order: `PresentTextsInOrder`) |
| Tab.PresentTextsInOrder | netbox-plugin/netbox_zabbix/views.py:74 | the texts keep the list's order: those of the first elements, then those of the rest |
| Tab.PresentTextsOne | netbox-plugin/netbox_zabbix/views.py:74 | a single element gives its text when it is not None, else nothing |
| Tab.JoinEmpty | netbox-plugin/netbox_zabbix/views.py:74 | a ", " join is empty exactly for no parts or a single empty part |
| Tab.JoinedOrNone | netbox-plugin/netbox_zabbix/views.py:74-76 | `or None`: either None or non-empty text |
| Tab.ExtraDisplay | netbox-plugin/netbox_zabbix/views.py:72-76 | a list is joined skipping None; text is split and trimmed; an empty join gives None; other values pass through |
| Tab.ExtraDisplayText | netbox-plugin/netbox_zabbix/views.py:75-76 | text shows None iff it has no items; otherwise the shown text lists the same items |
| Tab.ExtraDisplayList | netbox-plugin/netbox_zabbix/views.py:73-74 | a list shows None iff its joined text is empty |
| Tab.MissingCaptions | netbox-plugin/netbox_zabbix/views.py:104-106 | exactly the labels of rows with an empty display; empty iff no row is empty (order: `MissingCaptionsInOrder`) |
| Tab.MissingCaptionsInOrder | netbox-plugin/netbox_zabbix/views.py:104-106 | the missing labels keep the rows' order: those of the first rows, then those of the rest |
| Tab.MissingCaptionsOne | netbox-plugin/netbox_zabbix/views.py:104-106 | a single row is missing exactly when its display is empty |
| Tab.TabBadge | netbox-plugin/netbox_zabbix/views.py:108 | "ok" iff nothing missing; "caution" iff something missing but IP and template id truthy; else "fail" |
| Tab.PrimaryTemplateDisplay | netbox-plugin/netbox_zabbix/views.py:56-61 | the platform's name when truthy; else the choice-set label when non-empty; else the id |
| Tab.Displays | netbox-plugin/netbox_zabbix/views.py:85-102 | fourteen displays |
| Tab.CollectItemsAndStatus | netbox-plugin/netbox_zabbix/views.py:44-109 | the fourteen rows in order; `missing` is `MissingCaptions` of those rows, so exactly the empty rows in row order; the badge rule over the IP and template-id rows |
| LegacyTab.LegacyGetCf | netbox-plugin/views.py:9-12 | the key, else the stripped key, else the default |
| LegacyTab.LegacyTruthyNarrower | netbox-plugin/views.py:15-20 | this `truthy` accepts only what the engine's accepts, and rejects "enabled"/"enable" |
| LegacyTab.LegacyVisibleName | netbox-plugin/views.py:44-46 | the override when truthy; else a slice of "name - description" with only spaces and dashes cut off at each end, and neither end a space or a dash |
| Py.StripOfShape | netbox-plugin/views.py:46 | stripping a set of characters cuts off only characters of that set, before and after the slice it keeps |
| LegacyTab.VisibleNameJoined | netbox-plugin/views.py:46 | with clean ends the name is "name - description" |
| LegacyTab.VisibleNameWithoutDescription | netbox-plugin/views.py:39-46 | with no description or comments the name is the object name stripped of spaces and dashes |
| LegacyTab.StatusText | netbox-plugin/views.py:48-55 | the override's text when truthy; else "Enabled" iff the status value is "active", otherwise "Not Enable" |
| LegacyTab.LegacyIp | netbox-plugin/views.py:64-72 | the override's text; else the primary IPv4 address; else None |
| LegacyTab.ExtraTemplates | netbox-plugin/views.py:74-82 | None iff the raw value is falsy or has no items; otherwise a text whose items are the raw value's |
| LegacyTab.JoinedItems | netbox-plugin/views.py:78-82 | clean items joined with ", " give non-empty text that splits back to the items |
| LegacyTab.AsListText | netbox-plugin/views.py:78-81 | on text, the legacy splitting agrees with the export's `_as_list` |
| LegacyTab.LegacyDisplays | netbox-plugin/views.py:104-118 | thirteen displays |
| LegacyTab.CollectItems | netbox-plugin/views.py:36-119 | thirteen caption/value pairs in the fixed order |
| LegacyTab.ShownImpliesExported | netbox-plugin/views.py:122-123 | an object whose legacy tab is shown is emitted by the export |
| AwxInventory.EnvBoolDefault | netbox_zabbix_awx.py:5-7 | unset gives the default; set gives the narrow token test |
| AwxInventory.BoolText | netbox_zabbix_awx.py:5-7 | the text of a bool passes the token test exactly when it is True |
| AwxInventory.ReadSettings | netbox_zabbix_awx.py:18-22 | the base without trailing '/'; the token as set (empty when unset); the badge trimmed and lower-cased, "caution" when unset (`DefaultBadge`); verify as `env_bool` reads it, on by default |
| AwxInventory.RequestUrl | netbox_zabbix_awx.py:24-34 | none without base or token; the badge parameter only for "ok", "caution" or "fail" |
| AwxInventory.DefaultBadge | netbox_zabbix_awx.py:20 | an unset badge reads "caution" |
| AwxInventory.SafeShape | netbox_zabbix_awx.py:9-15 | non-empty, no '_' at either end, only alphanumerics, '_' and '-' |
| AwxInventory.SafeFixed | netbox_zabbix_awx.py:9-15 | a name already of that shape is kept |
| AwxInventory.SafeIdempotent | netbox_zabbix_awx.py:9-15 | `safe(safe(x)) == safe(x)` |
| AwxInventory.Safe | netbox_zabbix_awx.py:9-15 | the character loop computes `SafeSpec` |
| AwxInventory.SortMembers | netbox_zabbix_awx.py:132 | strictly increasing and exactly the members |
| AwxInventory.LookupSpec | netbox_zabbix_awx.py:67 | `dict.get` on parsed JSON: found iff some entry has the key, and the last such entry wins |
| AwxInventory.Picked | netbox_zabbix_awx.py:93-94 | only truthy values |
| AwxInventory.PickedExactly | netbox_zabbix_awx.py:93-94 | exactly the truthy fields of truthy entries |
| AwxInventory.GroupNames | netbox_zabbix_awx.py:120-125 | four candidates, the badge group always present |
| AwxInventory.AddToGroupsExactly | netbox_zabbix_awx.py:120-128 | a group exists iff it did or is named; its members are the old ones plus the host where named |
| AwxInventory.GroupNameShape | netbox_zabbix_awx.py:120-125 | a group name is made of safe characters and is never "all" or "_meta" |
| AwxInventory.PrefixedShape | netbox_zabbix_awx.py:121-124 | a safe prefix plus a safe value is a safe group name other than "all" and "_meta" |
| AwxInventory.PrefixedShaped | netbox_zabbix_awx.py:121-123 | an environment, OS or site group name, when there is one, is made of group characters and is neither "all" nor "_meta" |
| AwxInventory.NamesForShape | netbox_zabbix_awx.py:120-125 | the same for given tag and badge values |
| AwxInventory.AllListed | netbox_zabbix_awx.py:66-117 | `all.hosts` holds exactly the named hosts, and `hostvars` the same names |
| AwxInventory.LastHostWins | netbox_zabbix_awx.py:116 | a host's variables are those of the last host with its name |
| AwxInventory.GroupMembers | netbox_zabbix_awx.py:120-128 | a host is in a group iff one of its candidate names is that group; no group is empty |
| AwxInventory.BadgeGroupAlways | netbox_zabbix_awx.py:124-128 | every named host is in its badge group |
| AwxInventory.SortedUnique | netbox_zabbix_awx.py:132 | two strictly sorted lists with the same members are equal |
| AwxInventory.RendersUnique | netbox_zabbix_awx.py:130-134 | the output is determined by the loop's state |
| AwxInventory.Inventory.constructor | netbox_zabbix_awx.py:62-64 | the empty inventory |
| AwxInventory.Inventory.Candidate | netbox_zabbix_awx.py:121-123 | computes `Prefixed` |
| AwxInventory.Inventory.CandidateGroups | netbox_zabbix_awx.py:120-125 | computes `GroupNames` |
| AwxInventory.Inventory.JoinGroups | netbox_zabbix_awx.py:126-128 | computes `AddToGroups` |
| AwxInventory.Inventory.AddHost | netbox_zabbix_awx.py:66-128 | one turn of the loop, as `Step` says |
| AwxInventory.Inventory.Export | netbox_zabbix_awx.py:130-132 | renders the current state with sorted group lists |
| AwxInventory.BuildInventory | netbox_zabbix_awx.py:59-132 | the output renders the fold of the loop over the response's hosts |
| AwxInventory.HostsOfResponse | netbox_zabbix_awx.py:59 | the script reads back the export's host list |
| AwxInventory.LookupAt | netbox_zabbix_awx.py:82-99 | `dict.get` returns an entry's value when no later entry has its key |
| AwxInventory.HostKeysDistinct | netbox-plugin/netbox_zabbix/api/views.py:210-246 | the exported host object has distinct keys |
| AwxInventory.ReadExtra | netbox_zabbix_awx.py:93-94 | an exported extra template is truthy and reads back its id and name |
| AwxInventory.ReadTop | netbox_zabbix_awx.py:84-103 | top-level fields read back as exported |
| AwxInventory.ReadTags | netbox_zabbix_awx.py:73-76 | tag fields read back as exported |
| AwxInventory.ReadTemplateAndInterface | netbox_zabbix_awx.py:78-99 | template and interface fields read back as exported |
| AwxInventory.ReadExtras | netbox_zabbix_awx.py:80 | the extra-template list reads back as exported |
| AwxInventory.PickedIds | netbox_zabbix_awx.py:93 | the id list holds exactly the non-empty exported ids |
| AwxInventory.PickedNames | netbox_zabbix_awx.py:94 | the name list holds exactly the truthy exported names |
| AwxInventory.PickedExtraIds | netbox_zabbix_awx.py:93 | the id comprehension over the exported templates keeps exactly their non-empty ids, in order |
| AwxInventory.PickedExtraNames | netbox_zabbix_awx.py:94 | the name comprehension keeps exactly their truthy names, in order |
| AwxInventory.ReadBack | netbox_zabbix_awx.py:82-114 | every host variable equals the exported field it copies, and `enabled` is true |
| AwxInventory.ReadBackExtras | netbox_zabbix_awx.py:93-94 | the extra-template lists equal, in order, the exported non-empty ids and truthy names |
| AwxInventory.RequestedBadge | netbox_zabbix_awx.py:31-32 | a valid badge sent by the script is the one the export filters on |
| AwxInventory.BadgeLetters | netbox_zabbix_awx.py:31-34 | a valid badge is non-empty lower-case letters, so it needs no URL encoding |
| AwxInventory.RequestedBadgeGroup | netbox_zabbix_awx.py:124-128 | every named host the export returns for a badge lands in that badge's group |

## Specification functions

These functions only compute a value; what they mean is stated by the members named beside
them, each of which has its own row above.

- `Utils.TruthyFlag` (netbox-plugin/netbox_zabbix/utils.py:17-22): `Utils.TruthyFlagInt`, `Utils.TruthyFlagContainer`, `Api.ApiTruthyAgrees`, `LegacyTab.LegacyTruthyNarrower`.
- `Utils.MonEnabled` (netbox-plugin/netbox_zabbix/utils.py:187): `PopulateProps.PopulateErrorCause`, `Signals.MonFlagAgrees`, `Signals.MonFlagDiffers`, `Tasks.MonReqQueryEnabled`.
- `Utils.Complete` (netbox-plugin/netbox_zabbix/utils.py:341-362): `PopulateProps.CompleteIgnoresStatus`, `PopulateProps.StatusOutcome`.
- `Utils.PlacementStep` (netbox-plugin/netbox_zabbix/utils.py:315-328): `PopulateProps.PlacementMoves`, `PopulateProps.PlacementSettled`.
- `Utils.PopulateSpec` (netbox-plugin/netbox_zabbix/utils.py:167-372): `PopulateProps.PopulateTouchesOnlyMonitoringFields`, `PopulateProps.UnchangedMeansUntouched`, `PopulateProps.DisabledOnlyMarksRemoval`, `PopulateProps.PopulateErrorCause`.
- `Utils.IfaceNameFor` (netbox-plugin/netbox_zabbix/utils.py:303-309): `Utils.IfaceNameForInt`, `Utils.IfaceNameForInferred`, `Api.IfaceLabelAgrees`.
- `Choices.Normalize` (netbox-plugin/netbox_zabbix/utils.py:94-135): `Choices.NormalizeChoice`, `Choices.NormalizeEmptyVocabulary`, `Choices.NormalizeListMode`, `Choices.NormalizeScalarMode`.
- `Choices.ToVals` (netbox-plugin/netbox_zabbix/utils.py:99-118): `Choices.ToValsSpec`, `Choices.ToValsLoop`.
- `Choices.Dedup` (netbox-plugin/netbox_zabbix/utils.py:112-117): `Choices.DedupSpec`, `Choices.DedupOfNoDup`.
- `Choices.BuildMapping` (netbox-plugin/netbox_zabbix/utils.py:64-91): `Choices.BuildMappingShape`, `Choices.BuildMappingKeys`, `Choices.BuildMappingConsistent`, `Choices.BuildMappingStripped`.
- `Api.ApiTruthy` (netbox-plugin/netbox_zabbix/api/views.py:17-22): `Api.ApiTruthyAgrees`, `LegacyTab.ShownImpliesExported`.
- `Api.Monitored` (netbox-plugin/netbox_zabbix/api/views.py:263, 269): `Api.EmitExactly`.
- `Api.WantBadge` (netbox-plugin/netbox_zabbix/api/views.py:274): `Api.Inventory`, `AwxInventory.RequestedBadge`.
- `Api.Summarize` (netbox-plugin/netbox_zabbix/api/views.py:279-284): `Api.SummaryAddsUp`, `Api.Inventory`.
- `Api.HostFields` (netbox-plugin/netbox_zabbix/api/views.py:108-246): `Api.BuildHost`, whose contract gives every field.
- `Api.HostJson` (netbox-plugin/netbox_zabbix/api/views.py:210-246): `AwxInventory.HostKeysDistinct`, `AwxInventory.ReadTop`, `AwxInventory.ReadTags`, `AwxInventory.ReadTemplateAndInterface`, `AwxInventory.ReadBackExtras`.
- `Api.ResponseJson` (netbox-plugin/netbox_zabbix/api/views.py:285): `AwxInventory.HostsOfResponse`, `AwxInventory.RequestedBadgeGroup`.
- `Tab.IsEmpty` (netbox-plugin/netbox_zabbix/views.py:25-30): `Tab.IsEmptyVersusEmptyLike`, `Tab.MissingCaptions`, `Tab.MissingCaptionsOne`.
- `LegacyTab.LegacyTruthy` (netbox-plugin/views.py:15-20): `LegacyTab.LegacyTruthyNarrower`, `AwxInventory.EnvBoolDefault`.
- `LegacyTab.Description` (netbox-plugin/views.py:39): `LegacyTab.LegacyVisibleName`, `LegacyTab.VisibleNameJoined`.
- `LegacyTab.TabShown` (netbox-plugin/views.py:122-123): `LegacyTab.ShownImpliesExported`.
- `Signals.MonFlag` (netbox-plugin/netbox_zabbix/signals.py:85): `Signals.MonFlagAgrees`, `Signals.MonFlagDiffers`, `Signals.PopulateKeepsMonFlag`, `Signals.RouteCases`.
- `Signals.PrimaryStatus` (netbox-plugin/netbox_zabbix/signals.py:123): `Signals.RouteCases`, `Signals.PopulatedStatus`.
- `Tasks.DebounceKey` (netbox-plugin/netbox_zabbix/tasks.py:61): `Tasks.DebounceKeyInjective`, `Tasks.SourcesIndependent`, `Tasks.ScheduleSpec`.
- `Tasks.Ready` (netbox-plugin/netbox_zabbix/tasks.py:55-56): `Tasks.ScheduleSpec`.
- `Tasks.MonReqQuery` (netbox-plugin/netbox_zabbix/tasks.py:73-75): `Tasks.MonReqQueryEnabled`.
- `AwxInventory.EnvBool` (netbox_zabbix_awx.py:5-7): `AwxInventory.EnvBoolDefault`.
- `AwxInventory.SafeSpec` (netbox_zabbix_awx.py:9-15): `AwxInventory.Safe`, `AwxInventory.SafeShape`, `AwxInventory.SafeFixed`, `AwxInventory.SafeIdempotent`.
- `AwxInventory.VarsOf` (netbox_zabbix_awx.py:71-114): `AwxInventory.ReadBack`, `AwxInventory.ReadBackExtras`.
- `AwxInventory.KeyOf` (netbox_zabbix_awx.py:66-69): `AwxInventory.AllListed`, `AwxInventory.BadgeGroupAlways`.
- `AwxInventory.Prefixed` (netbox_zabbix_awx.py:121-123): `AwxInventory.PrefixedShaped`, `AwxInventory.GroupNames`.
- `AwxInventory.Step` (netbox_zabbix_awx.py:65-128): `AwxInventory.Inventory.AddHost`.
- `AwxInventory.Fold` (netbox_zabbix_awx.py:65-128): `AwxInventory.AllListed`, `AwxInventory.LastHostWins`, `AwxInventory.GroupMembers`, `AwxInventory.BadgeGroupAlways`.

## Left out

- HTTP, TLS and I/O are not modelled: `requests.post` in `awx_refresh_inventory`, and `urllib`, the SSL context, `float(NETBOX_TIMEOUT)`, printing, `json.dumps` formatting and `sys.exit` in the script. The script starts from the decoded response.
- Database and custom-field metadata are parameters. `CustomField`, `_cf_meta`, `_cf_exists`, `_choice_value_map`'s query, `_choice_label`, `_choice_label_from_set`'s query, `ContentType` and `MonitoringConfig` become a `Schema`, choice rows or tables, and a `lastSyncStatus` argument. `lru_cache` does not change results.
- `full_clean` and `save` are external. A validation failure is a flag that makes `Finish` raise `ValidationFailed`; saving is recorded as the stored row.
- Redis `setnx` then `expire` is modelled as two sequential steps on one broker. Their non-atomicity under concurrency is not modelled.
- `transaction.on_commit`, `.delay()` and the signal receivers become appends to a queue. The try/except around them is modelled by the deferred call's outcome being dropped.
- Logging is left out, except for the undefined `logger` in `tasks.py` (see Findings). `awx_refresh_inventory` uses the same undefined `logger`; it is HTTP and is not part of this model.
- The unreachable code after `return` in `netbox-plugin/netbox_zabbix/tasks.py:107-109` and `:128-130` is not modelled.
- Tasks.ProcessOne / Tasks.Process: the save at `netbox-plugin/netbox_zabbix/utils.py:391` would fire the `pre_save` and `post_save` receivers (re-populate with overwrite, status capture, and an after-commit refresh when the status changed); the model records only the row saved and does not run those receivers.
- Signals.PreSave: an exception other than the unhashable lookup is not modelled.
- Python `int()` is modelled for optional sign, surrounding whitespace and decimal digits. Underscores and non-ASCII digits are not modelled.
- `isalnum`, `isspace`, `isdigit`, `lower` and `strip` are ASCII only.
- Py.ReprStr: characters from U+0100 up that Python deems unprintable (line and paragraph separators, unassigned code points, …) are kept as they are; Python writes them as `\uXXXX` or `\UXXXXXXXX`.
- Collections are modelled as lists only. Python tuples and sets are treated as lists, and set iteration order is not modelled.
- Non-dict JSON where the script expects an object reads as empty; a non-list `hosts` is iterated as nothing.
- AwxInventory.KeyOf: a truthy `name` that is not a string is filed under its text, so an int `5` and a string `"5"` share one host entry; Python keys `hostvars` by the value itself, keeping them apart, and raises TypeError on a list or dict name.
- AwxInventory.VarsOf: a truthy `extra_templates` that is not a list (a string, say) reads as no templates; Python iterates it and raises AttributeError on `t.get`.
- `netaddr` IP addresses are an optional string.
- The status tab's read through the `.cf` property is modelled as a read of `custom_field_data`; the two differ only for objects outside NetBox 4.
- Rendering is not modelled: `ConditionalTab.render` and the view `get` methods' `render` calls. `LegacyTab.TabShown` models the tab's condition.
- The backfill management command, models, migrations, forms, serializers, urls and apps are not part of this model.
- PopulateProps.PopulateIdempotent and PopulateProps.EnabledRunSettled assume a non-blank primary IPv4 text and no `zb_extra_templates`. The source always reports a change when `zb_extra_templates` is present; see `ExtraTemplatesForceChange`.
- Signals.Route: its own contract is weak; the cases are stated in `Signals.RouteCases` for captured statuses, and `Signals.RouteFallback` reduces the uncaptured ones to those.
- Api.Emit: its contract only bounds the length; the exact membership is `Api.EmitExactly`.
- Api.Required: its contract only gives the count; the eleven fields are its body.
- Tab.Displays and LegacyTab.LegacyDisplays: their contracts only give the row count; each row is stated by the display functions.

## Findings

| source | as written | input that shows it | evidently intended | confidence | as-written member | corrected member |
|---|---|---|---|---|---|---|
| netbox-plugin/netbox_zabbix/tasks.py:57 | `logger` is used on the skip and debounce paths, but the module only imports `logging` and never defines `logger`, so both paths raise `NameError` | no AWX settings (skip); or a second request for the same source within the TTL (debounce) | log and return normally, with only a dispatch changing state | high (not executed) | Tasks.ScheduleAsWritten | Tasks.ScheduleSpec |
