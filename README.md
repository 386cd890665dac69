# CMDB feature packs: data-centre tabs, DNS record modals and the audit log

This project models four pieces of the CMDB's feature packs in Dafny and proves properties about them:

- **The data-centre tabs.** The rack elevation tab lists a rack's properties and its location chain. It then builds the unit map and the slot list, from the top unit down to unit 1. The row tab summarises the racks in a row. The room tab lists the rows of a room in the room's orientation, and the racks of each row in that row's own orientation.
- **The DNS record modals.** There is an edit modal and a create modal. Each one:
  - builds one form field per declared property;
  - turns the submitted `prop_*` inputs into a property bag of booleans, integers, floats and text;
  - checks the submission in a fixed order;
  - on success, stores the bag as the record's whole property bag and rewires the record's `PART_OF` and `RESOLVES_TO` edges.
- **The audit log tab.** It shows the entries about one node, newest first, at most 100 of them.
- **The two `create_audit_entry` functions and `register_hooks`.** One `create_audit_entry` is in the views module and one is in the hooks module. The hooks version writes nothing unless the AuditLogEntry type is known, and it can keep before and after snapshots.

The model is split into these modules:

- `Values` (values.dfy) holds the property values of a node's property bag. It also holds Python's truthiness and `or`, `dict.get`, and the ASCII string operations the views use: `lower`, `upper`, `strip`, `isdigit` and `int()`, including `int()`'s underscore grouping of digits.
- `StableSort` (stable_sort.dfy) is Python's `sorted`, with and without `reverse=True`. It is a stable insertion sort by a key and a direction. The proofs show the result is ordered, is a permutation of the input, and keeps ties in input order.
- `DataCenterViews` (data_center.dfy) holds the three tabs of `data_center_pack/views.py`.
- `GraphStore` (graph_store.dfy) is the part of the graph store the DNS modals change. `Store` is a class whose property bags and edges the methods update in place.
- `DnsViews` (dns.dfy) holds both DNS record modals of `dns_pack/views.py`.
- `AuditLogViews` (audit_log.dfy) holds `audit_log_tab` and `create_audit_entry` of `audit_log_pack/views.py`. `AuditStore` is a class holding the store's AuditLogEntry nodes.
- `AuditLogHooks` (audit_hooks.dfy) holds `create_audit_entry` and `register_hooks` of `audit_log_pack/hooks.py`.

Graph queries and node lookups are not executed. Their result rows are inputs, in the order the store returns them, and a lookup that finds nothing is `None`. The loops of the views are methods with loop invariants. Each method is proved equal to a specification function, and the properties are proved as lemmas about those functions.

**The model follows the code in these details.** Numeric-looking text that contains a '.' is stored as a float, not kept as text. `int()` and `float()` refuse text with a '-' that is not its first character, such as `"1-2"` or `"1.-5"`. That refusal makes the whole submission fail with the conversion error. A stored `type` that is not a string is handled in two different places:
- before the form is rendered, `upper()` on it fails outside the modal's error handling (`EditCrashed`);
- after collection, it is reported as an error of the modal (`TypeNotText`).

## Model

| member | source | states |
|---|---|---|
| Values.Truthiness | data_center_pack/views.py:184 | None, False, 0, '', [] and {} are falsy; `a or b` is `a` when `a` is truthy and `b` otherwise, so it is truthy whenever `b` is |
| Values.Lower | dns_pack/views.py:167 | `value.lower()` keeps the length and leaves no upper-case ASCII letter |
| Values.Upper | dns_pack/views.py:177 | `.upper()` keeps the length and leaves no lower-case ASCII letter |
| Values.Strip | dns_pack/views.py:177 | `strip()` never lengthens the text, and its result neither starts nor ends with a blank |
| Values.PythonInt | data_center_pack/views.py:77 | `int()` on text accepts only text whose stripped form ends in a digit, and gives a negative number only for a leading '-' |
| Values.PythonIntRoundTrip | data_center_pack/views.py:77 | `int()` reads any integer written in decimal back as that integer |
| Values.PythonIntGrouped | data_center_pack/views.py:77 | `int()` accepts one '_' between two groups of digits and reads the digits as one number |
| Values.PythonIntUnderscoreEdges | data_center_pack/views.py:77 | `int()` refuses digits with a leading or trailing '_' |
| Values.RemoveFirst | dns_pack/views.py:169 | `replace(c, '', 1)` removes exactly one character when `c` occurs and changes nothing otherwise |
| Values.RemoveFirstChars | dns_pack/views.py:169 | after `replace(c, '', 1)` only characters of the input remain, and every character other than `c` is still there |
| Values.StripNoBlanks | dns_pack/views.py:177 | `strip()` leaves text without blanks unchanged |
| Values.LeadingDigits | data_center_pack/views.py:77 | the integer part read by `int()` on a float consists of digits only |
| Values.DecimalTextRoundTrip | dns_pack/views.py:173 | a natural number written in decimal is all digits, and reading the digits back gives the number |
| Values.TextLessIrreflexive | data_center_pack/views.py:292 | Python's string order is irreflexive |
| Values.TextLessTransitive | data_center_pack/views.py:292 | Python's string order is transitive |
| Values.TextLessTotal | data_center_pack/views.py:292 | any two different strings are ordered one way or the other |
| StableSort.PrecedesIrreflexive | audit_log_pack/views.py:48 | no sort key comes before itself, in either direction |
| StableSort.PrecedesTransitive | audit_log_pack/views.py:48 | the sort order on keys is transitive |
| StableSort.PrecedesTotal | audit_log_pack/views.py:48 | two different keys of the same kind are ordered one way or the other |
| StableSort.InsertPermutation | data_center_pack/views.py:283 | an insertion adds exactly the inserted element to the multiset |
| StableSort.SortPermutation | data_center_pack/views.py:283-292 | `sorted` returns a permutation of its input |
| StableSort.InsertSorted | data_center_pack/views.py:283 | inserting into a sorted list keeps it sorted |
| StableSort.SortSorted | data_center_pack/views.py:283-292 | `sorted` (with or without `reverse=True`) returns a list ordered by the key in that direction |
| StableSort.WithKeyAppend | data_center_pack/views.py:283 | the elements with a given key in a concatenation are those of each part, in order |
| StableSort.WithKeyNone | data_center_pack/views.py:283 | a list where no element has the key has no elements with that key |
| StableSort.InsertStable | data_center_pack/views.py:283 | insertion keeps elements with equal keys in input order |
| StableSort.SortStable | data_center_pack/views.py:283-292 | `sorted` is stable, including with `reverse=True`: elements with equal keys keep their input order |
| StableSort.InsertLast | data_center_pack/views.py:283 | an element that nothing in a list comes after is inserted last |
| StableSort.SortOfSorted | data_center_pack/views.py:283 | sorting an already sorted list leaves it unchanged |
| StableSort.SortAfterAppend | data_center_pack/views.py:273-292 | re-sorting after each append gives the same list as appending everything and sorting once |
| DataCenterViews.PropertyRows | data_center_pack/views.py:33-41 | exactly one row per property of the rack, holding its value and the Python type name of that value |
| DataCenterViews.LocationChain | data_center_pack/views.py:59-68 | the location chain is no longer than the query result, and every entry has a non-empty label |
| DataCenterViews.BuildLocationChain | data_center_pack/views.py:59-68 | the loop builds the location chain, keeping the rows that have a label, in query order |
| DataCenterViews.LocationChainAppend | data_center_pack/views.py:59-68 | the chain of consecutive query rows is the concatenation of their chains, so query order is kept |
| DataCenterViews.LocationChainKeepsLabelled | data_center_pack/views.py:59-68 | the chain holds every labelled row and nothing else, and every entry has a non-empty label |
| DataCenterViews.SlotOf | data_center_pack/views.py:105-113 | a unit entry keeps its number and status, and has a device exactly when the device id is truthy |
| DataCenterViews.UnitMap | data_center_pack/views.py:101-113 | no unit map entry is filed under None, and a boolean unit number shares the integer's key |
| DataCenterViews.BuildUnitMap | data_center_pack/views.py:101-113 | the loop builds the unit map of the query rows |
| DataCenterViews.UnitMapNumbers | data_center_pack/views.py:101-113 | every unit map entry is filed under its own unit number, which is never None |
| DataCenterViews.UnitMapKeys | data_center_pack/views.py:101-113 | a unit number is in the map exactly when some row with a unit number carries it (True and 1 are one key) |
| DataCenterViews.UnitMapLastRowWins | data_center_pack/views.py:101-113 | the entry for a unit number comes from the last row that carries it |
| DataCenterViews.SlotAt | data_center_pack/views.py:116-121 | `unit_map.get(n, default)`: a unit number not in the map gives an empty slot with no device, and a slot with a device is the map's own entry |
| DataCenterViews.RackUnits | data_center_pack/views.py:115-122 | `range(height, 0, -1)` yields `height` slots, and none when the height is not positive |
| DataCenterViews.BuildRackUnits | data_center_pack/views.py:115-122 | the loop builds the slot list |
| DataCenterViews.RackUnitsLayout | data_center_pack/views.py:101-122 | there are exactly `height` slots, numbered from `height` down to 1; a number no row carries is an empty slot, and any other number holds the entry of the last row carrying it |
| DataCenterViews.ParseHeight | data_center_pack/views.py:71-77 | the height is reported missing exactly when it is falsy, and a non-zero integer height is used as it is |
| DataCenterViews.ParseHeightText | data_center_pack/views.py:71-77 | a height stored as the decimal text of an integer is read as that integer |
| DataCenterViews.ParseHeightGrouped | data_center_pack/views.py:71-77 | a height stored as digit groups joined by '_' is read as the number the digits spell |
| DataCenterViews.ZeroHeightTextGivesNoSlots | data_center_pack/views.py:71-77 | the text "0" passes the missing-height check and gives an empty slot list with no error |
| DataCenterViews.RackElevationTab | data_center_pack/views.py:7-130 | a missing rack is reported with everything else empty; otherwise the properties and location chain are filled, and the slots are built from the height, or the height's error is set with no slots |
| DataCenterViews.DisplayName | data_center_pack/views.py:184 | `row[2] or row[0][:12] + '...'` is always truthy, and is the rack's own name whenever that name is truthy |
| DataCenterViews.DisplayNameNeverBlank | data_center_pack/views.py:184 | a rack in the row tab always has a truthy name; the fallback is at most 15 characters and starts with the first 12 characters of the id |
| DataCenterViews.RowRacksTab | data_center_pack/views.py:132-193 | a missing row is reported; otherwise each queried rack gets its summary, in query order |
| DataCenterViews.OrderRowRacks | data_center_pack/views.py:273-292 | appending each rack and sorting again by the row's orientation gives the row's racks in the order OrderRacks defines |
| DataCenterViews.RoomRacksTab | data_center_pack/views.py:195-320 | a missing room is reported; otherwise the orientation defaults to LeftToRight, and the rows and their racks come out as RoomRows orders them |
| DataCenterViews.OrderRacks | data_center_pack/views.py:281-292 | sorting a row's racks returns a permutation of them |
| DataCenterViews.RacksByNumber | data_center_pack/views.py:283-289 | racks sorted by rack number are non-decreasing, or non-increasing with `reverse=True` |
| DataCenterViews.RacksByName | data_center_pack/views.py:292 | racks sorted by name are in Python's string order |
| DataCenterViews.OrderRacksOrdering | data_center_pack/views.py:281-292 | a row's racks are a permutation of the query's racks, ordered by ascending number (LeftToRight, TopToBottom), descending number (RightToLeft, BottomToTop) or name (anything else); ties keep query order |
| DataCenterViews.OrderRows | data_center_pack/views.py:304-312 | sorting the room's rows returns a permutation of them, ordered by row number in the room orientation's direction when the orientation is recognised |
| DataCenterViews.OrderRowsOrdering | data_center_pack/views.py:304-312 | an unrecognised orientation keeps the rows as they are; otherwise rows are ascending or descending by row number, and rows with equal numbers keep their order |
| DataCenterViews.RoomRows | data_center_pack/views.py:241-312 | the room tab has one row per queried row |
| DataCenterViews.RowsByNumber | data_center_pack/views.py:305-312 | rows sorted by row number are non-decreasing, or non-increasing with `reverse=True` |
| DataCenterViews.RoomRowsOrdering | data_center_pack/views.py:304-312 | one row per queried row, ascending or descending by row number as the room's orientation says, rows with equal numbers in query order, and all rows in query order for an unrecognised orientation |
| DataCenterViews.RoomRowsKeepRowOrientation | data_center_pack/views.py:241-302 | the room's rows are a permutation of the queried rows, and each row's racks are ordered by that row's own orientation |
| GraphStore.WithoutTargetsStep | dns_pack/views.py:208-211 | disconnecting one more target removes the edges to the enlarged set of targets |
| GraphStore.WithoutTargetsNone | dns_pack/views.py:208-211 | disconnecting no target leaves the edges unchanged |
| GraphStore.WithoutAllTargets | dns_pack/views.py:208-211 | disconnecting every target an edge points to removes all edges of that type from the record |
| GraphStore.TargetsCover | dns_pack/views.py:208-211 | every outgoing edge of a type has its target in `get_outgoing_relationships()[rel]` |
| GraphStore.WithoutRelMembers | dns_pack/views.py:207-211 | an edge survives the reset exactly when it is not one of the record's edges of that type |
| GraphStore.EdgesOfAppend | dns_pack/views.py:213-217 | the outgoing edges of a concatenation are those of each part, in order |
| GraphStore.EdgesOfWithoutRel | dns_pack/views.py:207-211 | after the reset the record has no edge of that type, and its other edge types are untouched |
| GraphStore.Store.constructor | dns_pack/views.py:105-106 | the store starts with the given nodes and edges |
| GraphStore.Store.SetProperties | dns_pack/views.py:204-205 | saving replaces the node's whole property bag and changes nothing else |
| GraphStore.Store.CreateNode | dns_pack/views.py:504 | saving a new node adds it under its fresh id and changes nothing else |
| GraphStore.Store.Connect | dns_pack/views.py:213 | `connect_nodes` adds one edge and changes nothing else |
| GraphStore.Store.Disconnect | dns_pack/views.py:209 | `disconnect_nodes` removes the record's edges of that type to that target and nothing else |
| DnsViews.Coerce | dns_pack/views.py:167-175 | a submitted text becomes a boolean, an integer, a float or the text itself; text is kept unchanged, a float keeps its text and has a '.', and an integer comes from text without '.' |
| DnsViews.FloatAccepts | dns_pack/views.py:171 | `float()` accepts text only when the stripped text holds a digit |
| DnsViews.BooleanWordStart | dns_pack/views.py:167 | a boolean word starts with a letter, never a digit, '.' or '-' |
| DnsViews.NumericChars | dns_pack/views.py:169 | text passing the numeric test consists of digits, '.' and '-' only |
| DnsViews.NumericUnstripped | dns_pack/views.py:169-173 | numeric-looking text has no blanks for `int()` or `float()` to strip |
| DnsViews.IntAccepts | dns_pack/views.py:169-173 | `int()` accepts numeric-looking text without '.' exactly when its '-', if any, comes first |
| DnsViews.FloatAcceptsIff | dns_pack/views.py:169-171 | `float()` accepts numeric-looking text with a '.' exactly when its '-', if any, comes first |
| DnsViews.FloatSignLeads | dns_pack/views.py:169-171 | numeric-looking text starting with '-' is accepted by `float()` |
| DnsViews.FloatMinusInside | dns_pack/views.py:169-171 | numeric-looking text with a '-' after its first character is refused by `float()` |
| DnsViews.FloatUnsigned | dns_pack/views.py:169-171 | numeric-looking text without '-' is accepted by `float()` |
| DnsViews.CoerceRefusesIff | dns_pack/views.py:164-175 | a submitted text makes the conversion raise exactly when it looks numeric and has a '-' that is not its first character |
| DnsViews.NotBooleanWord | dns_pack/views.py:167 | text starting with a digit, '.' or '-' is not a boolean word |
| DnsViews.CoerceDigitsRoundTrip | dns_pack/views.py:169-173 | decimal digits are stored as the integer they spell |
| DnsViews.CoerceNegativeRoundTrip | dns_pack/views.py:169-173 | '-' followed by decimal digits is stored as the negated integer |
| DnsViews.CoerceIntRoundTrip | dns_pack/views.py:164-175 | any integer, written in decimal and submitted, is stored as that integer |
| DnsViews.CoerceKeepsText | dns_pack/views.py:174-175 | text with a character other than a digit, '.' or '-' that is not a boolean word is stored unchanged as text |
| DnsViews.CoerceBoolIff | dns_pack/views.py:167-168 | a boolean is stored exactly for "true"/"false" in any letter case, and its value says which |
| DnsViews.CoercePostErrorSticks | dns_pack/views.py:162-175 | once an input fails to convert, the collection fails with that error whatever follows |
| DnsViews.CoercePost | dns_pack/views.py:163-175 | collecting the submission fails only with a conversion error |
| DnsViews.CoercePostAccepted | dns_pack/views.py:163-175 | when collection succeeds, every `prop_*` input was accepted by the conversion |
| DnsViews.CoercePostFirstError | dns_pack/views.py:163-175 | when collection fails, the error names the first `prop_*` input the conversion refuses, and all earlier ones were accepted |
| DnsViews.CoercePostKeys | dns_pack/views.py:163-175 | when collection succeeds, its keys are exactly the property names of the `prop_*` inputs |
| DnsViews.CollectProps | dns_pack/views.py:163-175 | the collection loop computes CoercePost, stopping at the first refused input |
| DnsViews.CoercePostOutcome | dns_pack/views.py:163-175 | collection succeeds exactly when every `prop_*` text is accepted, and then the keys are exactly the submitted property names; otherwise the error names the first refused input |
| DnsViews.CoercePostValues | dns_pack/views.py:163-175 | each submitted property holds the converted text of its own input |
| DnsViews.BuildFormFields | dns_pack/views.py:121-137 | the loop builds the form fields of the declarations |
| DnsViews.FormFieldsDescribeDeclarations | dns_pack/views.py:122-137 | every field comes from a declaration with a non-empty name; its input is `prop_<key>`, it is required exactly when listed as required, a select exactly when it has choices, and its value is the current one or '' |
| DnsViews.FormFieldsCoverDeclarations | dns_pack/views.py:122-137 | every declaration with a non-empty name has a field |
| DnsViews.FieldInputRoundTrip | dns_pack/views.py:164-166 | a field's input name is read back as the field's own property |
| DnsViews.SubmittedFormKeys | dns_pack/views.py:122-175 | submitting every field of the form, when accepted, gives a bag whose keys are exactly the fields' keys |
| DnsViews.NameField | dns_pack/views.py:139 | `next(...)` finds the first field named "name", and finds none exactly when no field has that name |
| DnsViews.OtherFields | dns_pack/views.py:140 | the other fields are exactly the fields whose key is neither "name" nor "type" |
| DnsViews.FirstTargetIsAnEdge | dns_pack/views.py:142-144 | the current zone or resolution target shown is one of the record's edges, and one is shown whenever such an edge exists |
| DnsViews.CurrentType | dns_pack/views.py:156 | `(props.get('type') or '').upper()` fails exactly when the stored type is truthy and not text, and otherwise has no lower-case letter |
| DnsViews.RecordTypeOf | dns_pack/views.py:177 | `.get('type', '').strip().upper()` fails exactly when the collected type is present and not text, and otherwise has no lower-case letter |
| DnsViews.MissingRequiredMembers | dns_pack/views.py:182 | a required property is reported missing exactly when it is absent or '', and nothing is missing exactly when all are present and non-empty |
| DnsViews.MissingRequiredAppend | dns_pack/views.py:182 | the missing properties of a concatenated list of required names are those of each part, in turn, so they are listed in declaration order |
| DnsViews.CheckSubmission | dns_pack/views.py:177-201 | the type error is reported exactly when the collected type is not text; a missing-properties error lists exactly the missing ones, in declaration order; an accepted bag is the collected bag, with its record type and every required property present and non-empty |
| DnsViews.Validate | dns_pack/views.py:162-201 | an accepted submission has the collected bag, a known or empty record type, every required property present and non-empty, and the stripped `zone_id`, `ip_id` and `record_id` inputs; the zone is non-empty, the address is non-empty for A/AAAA and the target record is non-empty for CNAME |
| DnsViews.ValidationOrder | dns_pack/views.py:177-201 | the checks run in order: each error is reported only when every earlier check passed, and a missing-properties error lists exactly the missing required properties in declaration order |
| DnsViews.ValidationComplete | dns_pack/views.py:177-201 | a submission that passes every check is accepted |
| DnsViews.SavedRecordReopens | dns_pack/views.py:177-205 | a record saved by either modal has a text type, so the edit modal can open it again |
| DnsViews.ResetRemovesBoth | dns_pack/views.py:207-211 | disconnecting every listed PART_OF target, then every listed RESOLVES_TO target, removes exactly the record's edges of those two types |
| DnsViews.NewEdgesByRel | dns_pack/views.py:213-217 | the new edges are one PART_OF edge to the zone, followed by the record's new RESOLVES_TO edges |
| DnsViews.RewiredSubmission | dns_pack/views.py:207-217 | for any submission with an address when the type needs one and a target when it is CNAME, the record ends with exactly one zone edge and the resolution edge its type calls for, and every other edge is kept |
| DnsViews.RewiredEdges | dns_pack/views.py:207-217 | after an edit the record has exactly one PART_OF edge, to the chosen zone; one RESOLVES_TO edge to the address (A/AAAA) or target record (CNAME), and none otherwise; every other edge is kept |
| DnsViews.DisconnectAll | dns_pack/views.py:208-211 | the disconnect loop removes the record's edges of that type to every listed target and leaves the nodes alone |
| DnsViews.ConnectRecord | dns_pack/views.py:213-217 | the record is connected to its zone and, when its type needs one, to its resolution target |
| DnsViews.EditRecord | dns_pack/views.py:101-233 | a missing record is reported; a non-text stored type fails before the form; a GET or a refused POST shows the form and changes nothing; an accepted POST replaces the bag and rewires the edges |
| DnsViews.PickerName | dns_pack/views.py:413-439 | the name shown is the first truthy property among the keys, or else the first 8 characters of the element id |
| DnsViews.Pickers | dns_pack/views.py:413-440 | the first 200 nodes of the listing are offered, in listing order, under their own ids |
| DnsViews.PickerNameShown | dns_pack/views.py:413-439 | an offered node with a non-empty id always shows a truthy name |
| DnsViews.CreateFieldsStartEmpty | dns_pack/views.py:391-393 | every field of the create form starts out as '' |
| DnsViews.CreateRecord | dns_pack/views.py:376-525 | a GET or a refused POST shows the form and changes nothing; an accepted POST creates the record with the submitted bag and connects it |
| AuditLogViews.Matching | audit_log_pack/views.py:29-45 | a row is collected exactly when it is the row of a listed entry whose `node_id` is the element id |
| AuditLogViews.RowOf | audit_log_pack/views.py:34-45 | a row keeps the entry's id and its stored timestamp, node name and user, with 'Unknown' for a missing node name and 'System' for a missing user |
| AuditLogViews.MatchingAppend | audit_log_pack/views.py:30-45 | the rows of a concatenated listing are those of each part, in turn, so listing order and repetitions are kept |
| AuditLogViews.Orderable | audit_log_pack/views.py:48 | the sort can order text timestamps; it raises when two or more rows are sorted and one timestamp is None, or when text and integer timestamps are mixed |
| AuditLogViews.Take | audit_log_pack/views.py:49 | `s[:n]` is a prefix of at most `n` elements, and the whole list when it is short enough |
| AuditLogViews.AuditTabOf | audit_log_pack/views.py:47-52 | at most 100 entries are shown; an error is set exactly when the timestamps cannot be ordered, and then no entry is shown |
| AuditLogViews.AuditLogTab | audit_log_pack/views.py:9-54 | the tab's loop, sort and cap compute AuditTabOf |
| AuditLogViews.TabShowsOnlyMatching | audit_log_pack/views.py:30-49 | every entry shown is the row of a listed entry about the node |
| AuditLogViews.TabShowsAllWhenFew | audit_log_pack/views.py:47-49 | when at most 100 entries concern the node, every one of them is shown, as often as it is listed |
| AuditLogViews.TabNewestFirst | audit_log_pack/views.py:47-52 | at most 100 entries, newest first with ties in listing order; the sort fails exactly when the timestamps cannot be ordered, and then nothing is shown |
| AuditLogViews.TabKeepsNewest | audit_log_pack/views.py:47-49 | the cap keeps the newest entries: none left out is newer than one shown |
| AuditLogViews.AuditStore.constructor | audit_log_pack/views.py:26 | the store holds the given entries |
| AuditLogViews.AuditStore.Save | audit_log_pack/views.py:89 | saving an entry lists it last and changes nothing else |
| AuditLogViews.EntryProperties | audit_log_pack/views.py:76-87 | the entry holds the current timestamp and the given node id; its user is truthy; its node name, changes and target id are the given truthy value or '' |
| AuditLogViews.CreateAuditEntry | audit_log_pack/views.py:57-94 | a successful save adds exactly one entry with the given arguments and their defaults; a failed save gives None and writes nothing |
| AuditLogViews.CreatedEntryShown | audit_log_pack/views.py:33-87 | the tab reads back what creation writes; an entry concerns exactly the node its `node_id` names, and it is shown while the node has at most 100 entries |
| AuditLogViews.CreatedEntryHasUser | audit_log_pack/views.py:82 | a created entry always has a truthy user: the given one, or 'System' |
| AuditLogHooks.HookProperties | audit_log_pack/hooks.py:14-29 | the hook's entry has every key of the views module's entry, and holds `old_props` or `new_props` exactly when that snapshot is not None |
| AuditLogHooks.HookPropertiesSnapshots | audit_log_pack/hooks.py:14-29 | the hook's entry agrees with the views module's entry on their shared fields, and it holds a snapshot key exactly when that snapshot is not None |
| AuditLogHooks.HookWithoutSnapshots | audit_log_pack/hooks.py:14-29 | without snapshots the hook writes exactly the entry the views module writes |
| AuditLogHooks.HookKeepsIdentity | audit_log_pack/hooks.py:15-18 | the timestamp, action, node label and node id are stored exactly as given |
| AuditLogHooks.HookCreateAuditEntry | audit_log_pack/hooks.py:6-33 | nothing is written without the AuditLogEntry type or when the save fails; otherwise exactly one entry, with its snapshots, is added |
| AuditLogHooks.HookRegistry.constructor | audit_log_pack/hooks.py:36 | the registry starts empty |
| AuditLogHooks.HookRegistry.Register | audit_log_pack/hooks.py:37 | registering appends the hook |
| AuditLogHooks.RegisterHooks | audit_log_pack/hooks.py:36-37 | exactly this module's `create_audit_entry` is registered, once |
| AuditLogHooks.RunHook | audit_log_pack/hooks.py:6-33 | running the registered hook behaves as `create_audit_entry` of the hooks module |

## Left out

- Characters are ASCII-only:
  - `lower`, `upper` and `strip` do not model Unicode case mapping or Unicode whitespace;
  - `isdigit` does not accept Unicode digits.
- Floats are kept as their decimal text. Python's float rounding is not modelled. `float()` syntax the numeric test can never let through, such as exponents, `inf`, `nan` and underscores, is left out.
- The string formatting of error messages is not modelled. Errors are datatype values.
- Rendering, templates, the CSRF token, the request object and the user are not modelled. Each view's outcome is a datatype value.
- The graph queries (Cypher) and `nodes.all()` are inputs, in the order the store returns them. The store's own ordering is not modelled.
- The record's element id on creation, the current time and whether a save succeeds are all parameters:
  - `newId` is the record's element id on creation;
  - `timestamp` is the current UTC time in ISO format;
  - `saved` says whether a save succeeds.
- Exceptions raised by the graph store are not modelled, except for a failed audit save. This covers node lookup, save, connect and disconnect. For example, the DNS modals' `except` branch after a failed `save()` is not modelled.
- The listings of zones, addresses and records are inputs to the create modal. The `except` branches that empty a failing listing are not modelled.
- The calls to `audit_update_node` and `audit_create_node` after a successful edit or create are not modelled: `cmdb.audit_helpers` is not part of this model.
- A property declaration whose name is not a string is not modelled. A declaration's name is text, with '' for a missing one.
- DataCenterViews.UnitMapKeys: a unit number that is a float equal to an integer does not share that integer's dict key. A list or dict unit number, which would raise `TypeError`, is not modelled either.
- DataCenterViews.RoomRacksTab: row numbers are integers, and rack names are text. A query returning a row number or rack name of another type is not modelled, and neither is the failure of comparing mixed types.
- AuditLogViews.TabNewestFirst: timestamps that are floats, lists, dicts or None are treated as unorderable whenever at least two entries are sorted. Python could order some of these, for example floats against integers.
- The `print` of errors and debug output is left out.
- DataCenterViews.PropertyRows: the rows are not stated to follow the property bag's insertion order, because a property bag is a `map`, which has no order. The contract gives one row per property with its value and type name, and no order.
- AuditLogViews.AuditStore.Save: the new entry is listed last. That is an assumption about the order of `nodes.all()`, which the store does not promise. The tab's own ordering does not depend on it, since it sorts by timestamp.
- The registry of audit hooks is a list of `AuditHook` values. The core's hook mechanism itself is not part of this model.
