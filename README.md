# REDI pipeline, modelled and verified in Dafny

REDI (REDCap Electronic Data Importer) takes lab results exported from an
electronic medical record and loads them into a REDCap project. This Dafny
project models the in-memory part of its pipeline (in `bin/redi.py` and
`bin/upload.py`). XML parsing, the network and date formatting are left
out.

* **The raw data tree** (`Records.RawData`) is the list of `subject`
  elements of the raw XML, one per lab result. Each subject is a map from
  child tag to text. The driver (`bin/redi.py:365-500`) first adds the
  empty children the later passes set (`add_elements_to_tree`, not part of
  this model). The passes below then update that list in place, in this order:
  * renaming of elements (`Renaming`);
  * collection-date backfill (`Collection`);
  * replacing a component id by its loinc code (`Renaming`);
  * time-stamp formatting (`update_time_stamp`, not part of this model);
  * six table-lookup enrichments (`Enrichment`), which add in turn
    * the form name,
    * the imported-marker field name,
    * the status field name,
    * the date field,
    * the completion-marker field name,
    * the value and units field names;
  * the stable sort on (STUDY_ID, form, timestamp) (`Sorting`);
  * event sequencing, which gives every result the event it belongs to and reports event-list overruns (`Sequencing`);
  * remapping research ids to REDCap record ids (`Remap`).
* **The person-form-event tree** (`Tree.PersonFormEventTree`) holds one
  person per study id. Each person carries every form of the study, each
  form its events, and each event a status and named fields. It is built
  from the form-events document and the translation table
  (`Skeleton`). The merge writes each result into its event (`Merge`). The
  status pass then fills the status fields (`Status`).
* **The upload** (`Upload`, `UploadRuns`) sends every event not yet sent
  as one import record to the REDCap client:
  * an accepted record marks its event `sent` and stores the tree in the repository;
  * a rejected one adds the server's error messages to the report;
  * any other failure ends the run.

  The client's answers are a parameter of the model, `respond(n, record)`,
  which depends on the number of earlier requests and on the record.

Each method that changes state is proved against a specification function
of the old state. The properties of each pass are lemmas about those
functions.

## Model

| member | source | states |
|---|---|---|
| Common.OrEmptyConflates | bin/redi.py:1781-1785 | Reading a missing text as "" identifies exactly a missing text with an empty one: two optional texts read alike exactly when they are equal or both are missing or empty. |
| Common.FirstIndex | bin/redi.py:1721 | The position of the first name equal to the given one: the name there matches and no earlier name does. None means no name matches. |
| Enrichment.BuildTable | bin/redi.py:948-953 | A key is in the lookup table exactly when some entry has the value child and that index key. Its value is the value child of the last such entry. |
| Enrichment.BuildLookup | bin/redi.py:948-953 | The table-building loop yields exactly `BuildTable`: entries without the value child are ignored and later entries override earlier ones. |
| Enrichment.StampedValue | bin/redi.py:957-965 | After a lookup pass, each subject's target child holds the value of the last entry carrying its key, or the pass's sentinel when none does. Every other child is unchanged and no child disappears. |
| Enrichment.Reach | bin/redi.py:957-965 | The number of leading subjects that have every given child: each subject before it has them all, and the subject at it, if any, lacks one. |
| Enrichment.ReachMeans | bin/redi.py:957-965 | A subject lies before the reach exactly when it and every earlier subject have all the children. |
| Enrichment.LookupPass | bin/redi.py:957-965 | A pass keeps the number of subjects. It raises exactly when some subject lacks the element to set, and when it does not raise, every subject is stamped as `StampedValue` says. |
| Enrichment.LookupPassMeans | bin/redi.py:957-965 | A subject is stamped exactly when it and every subject before it have the element to set. Every other subject is left as it was, so stamps written before the raise are kept. |
| Enrichment.UpdateDataFromLookup | bin/redi.py:921-965 | The subject list after the pass is that of `LookupPass`, and the pass raises exactly when `LookupPass` reports an error: every subject up to the first one without the element to set is stamped, in order, and that subject raises. |
| Enrichment.UpdateRedcapForm | bin/redi.py:763-784 | Stamps `redcapFormName`, looked up by `loinc_code` in the clinical components, with "undefined" on a miss, through `LookupPass`: raises at the first subject without that child. |
| Enrichment.UpdateFormImportedField | bin/redi.py:706-723 | Stamps `formImportedFieldName`, looked up by form name in the form elements, with "undefined" on a miss, through `LookupPass`: raises at the first subject without that child. |
| Enrichment.UpdateRedcapFormStatus | bin/redi.py:686-703 | Stamps `redcapStatusFieldName`, looked up by `loinc_code`, with "undefined" on a miss, through `LookupPass`: raises at the first subject without that child. |
| Enrichment.UpdateFormCompletedFieldName | bin/redi.py:854-874 | Stamps `formCompletedFieldName`, looked up by form name, with "undefined" on a miss, through `LookupPass`: raises at the first subject without that child. |
| Enrichment.UpdateRedcapFieldNameValueAndUnits | bin/redi.py:877-918 | Two passes by `loinc_code`: the value field name, with "undefined" on a miss, then the units field name, with its own sentinel. When the first pass raises, the second does not run and the writes of the first are kept. |
| Enrichment.UnitsMissUsesItsOwnSentinel | bin/redi.py:895-918 | A code with no units entry gets "redcapFieldNameUnitsUndefined", not "undefined", in the units slot. A code with no value entry gets "undefined" in the value slot. |
| Enrichment.DateTable | bin/redi.py:829-832 | The date-field table exists exactly when every form element has both a `name` and a `formDateField` child. When it exists, it maps each name to the date field of the last form of that name. |
| Enrichment.DatePass | bin/redi.py:828-851 | Keeps the number of subjects. It raises exactly when some form element lacks `name` or `formDateField`, or some subject lacks `redcapFormName` or `formDateField`. A form element without them raises before any subject is changed. |
| Enrichment.DatePassMeans | bin/redi.py:836-851 | With every form element complete, a subject gets its form's date field exactly when it and every subject before it have both children. Every other subject is left as it was. |
| Enrichment.UpdateFormDateField | bin/redi.py:815-851 | The subjects after the pass and whether it raises are those of `DatePass`. |
| Enrichment.DateFieldForForm | bin/redi.py:836-851 | A subject of the "undefined" form, or of a form no form element names, gets "undefined". A subject of a known form gets that form's date field, the last form element of that name winning. |
| Renaming.ReplaceFieldsInRawXml | bin/redi.py:1857-1891 | The subjects after the pass are the result of applying every (source, target) rename in the given order, each to every subject. |
| Renaming.RenameSubjects | bin/redi.py:1882-1890 | One rename is applied to every subject in place, in order, and nothing else changes. |
| Renaming.RenameMovesText | bin/redi.py:1882-1890 | A rename moves the text to the new tag, removes the old tag and keeps every other child. When the target tag was free, renaming back restores the subject. |
| Renaming.ConvertSubjects | bin/redi.py:1805-1815 | Every subject whose source child has the source value has that child replaced by the target child with the target value. Other subjects are left as they were. |
| Renaming.ConvertAll | bin/redi.py:1800-1818 | Keeps the number of subjects. The conversions succeed exactly when every entry has a non-empty source name, source value and target name. |
| Renaming.ConvertComponentIdToLoincCode | bin/redi.py:1788-1819 | Applies the conversions in order. The first unusable entry raises, and the conversions before it stay applied. |
| Sorting.OptLeFacts | bin/redi.py:800-812 | Python 2's order on optional strings, with None below every string, is reflexive, total, antisymmetric and transitive. |
| Sorting.KeyLeTotalOrder | bin/redi.py:800-812 | The tuple order on (STUDY_ID, redcapFormName, timestamp) keys is a total order. |
| Sorting.InsertPermutes | bin/redi.py:797 | Insertion adds exactly the inserted subject to the multiset of subjects. |
| Sorting.InsertSorted | bin/redi.py:797 | Insertion into a list sorted by key keeps it sorted. |
| Sorting.InsertStable | bin/redi.py:797 | Insertion puts the subject in front of the other subjects with its key and leaves every other key's subsequence unchanged. |
| Sorting.SortByKeyCorrect | bin/redi.py:787-812 | The sort yields a permutation of the subjects that is non-decreasing in the key. Subjects with equal keys keep their original relative order. |
| Sorting.SortElementTree | bin/redi.py:787-797 | The subject list is replaced by its stable sort: a permutation, sorted by key, with every key's subjects in their original order. |
| Sequencing.BuildEventTableCollects | bin/redi.py:979-983 | The form-to-events table lists, for each form name, the events of every form of that name in document order. An unknown form has an empty list. |
| Sequencing.AppendEvents | bin/redi.py:982-983 | The list grows by exactly the form's events, in order. |
| Sequencing.LoadEventTable | bin/redi.py:979-983 | Raises exactly when a form has no `name` child. Otherwise it yields the form-to-events table. |
| Sequencing.Step | bin/redi.py:1002-1097 | One subject: the step raises exactly on the subjects the source raises on. A subject that is not sequenced leaves the loop state unchanged. Only `eventName` may change. |
| Sequencing.Run | bin/redi.py:1002-1097 | The loop keeps the number of subjects. |
| Sequencing.RunFailsExactly | bin/redi.py:1002-1097 | The pass raises exactly when some subject lacks an element it must read or write. |
| Sequencing.RunAfterFailure | bin/redi.py:1002-1097 | Once the loop has raised, the remaining subjects stay as they were. |
| Sequencing.RunFailsAt | bin/redi.py:1002-1097 | Raising on subject i leaves subject i and every later subject unchanged. |
| Sequencing.SequencedOfLast | bin/redi.py:1011-1020 | Subjects with the "undefined" form or an empty timestamp take no part in sequencing. |
| Sequencing.TsGroupDiffers | bin/redi.py:1022-1025 | Within one record group, the joined timestamp-group keys differ exactly when the timestamps differ. |
| Sequencing.GroupIsNotDummy | bin/redi.py:987-1000 | A joined record-group key is never the initial "dummy", so the first sequenced subject always starts a group. |
| Sequencing.AdvanceMatches | bin/redi.py:1026-1059 | The group bookkeeping for one sequenced subject keeps the loop state equal to the reference (index, group, alerts) over the sequenced subjects seen so far. |
| Sequencing.AdvanceSameGroup | bin/redi.py:1052-1059 | Within a group, the event index goes up by one exactly when the timestamp changes. |
| Sequencing.AdvanceStartsGroup | bin/redi.py:1026-1051 | A new record group resets the index to 0. It appends an overrun alert for the group that ended exactly when that group's index exceeds its form's event count. |
| Sequencing.AdvanceNewGroup | bin/redi.py:1026-1051 | A subject that starts a group keeps the loop state equal to the reference. |
| Sequencing.NewGroupReference | bin/redi.py:1026-1051 | On the reference side, a new group has index 0 and is its own first subject. The only alert it can add is for the group before it. |
| Sequencing.LastStepMatches | bin/redi.py:1002-1097 | The step on a subject it does not raise on writes the event name the reference predicts and keeps the state equal to the reference. |
| Sequencing.SequencedStepMatches | bin/redi.py:1064-1097 | A sequenced subject gets the event at the reference index of its group: the declared event name, or "undefined" past the end. |
| Sequencing.SequencedStep | bin/redi.py:1064-1097 | A sequenced subject gets the event at the index the bookkeeping computed, or "undefined" past the end of the list. |
| Sequencing.RunMatchesReference | bin/redi.py:968-1100 | A pass that does not raise does three things. Every "undefined"-form subject gets eventName "undefined". Subjects with an empty timestamp are untouched. Every other subject gets the event named by the number of timestamp changes since its group began. The alerts are exactly the reference alerts. |
| Sequencing.OneGroupNoAlerts | bin/redi.py:1026-1038 | Sequenced subjects that all share one group produce no alert, however far the group overruns, because the final group is never checked. |
| Sequencing.SameTimestampSameEvent | bin/redi.py:1052-1059 | Within a group, subjects with the same timestamp get the same event index. |
| Sequencing.DistinctStampsTakeEventsInOrder | bin/redi.py:1052-1097 | In a group whose timestamps all differ, the k-th subject has index k and so takes the k-th declared event. |
| Sequencing.OverrunReportedAtNextGroup | bin/redi.py:1031-1032 | K subjects with distinct timestamps, followed by another group, are reported exactly when K - 1 exceeds the number L of declared events. No alert is raised at K = L + 1, which is the 0-based `index > len` test. |
| Sequencing.AdvanceGroups | bin/redi.py:1021-1059 | The bookkeeping code of the loop body computes exactly `Advance`. |
| Sequencing.StepSubject | bin/redi.py:1003-1097 | The loop body computes exactly `Step`: the raised error, or the new loop variables and the subject as written. |
| Sequencing.UpdateEventName | bin/redi.py:968-1100 | A form without a name raises and changes nothing. Otherwise the subjects are those of `Run`, and the pass raises exactly when `Run` fails. On success it returns the overrun alerts and an always-empty multiple-values list. |
| Collection.CorrectDateSpec | bin/redi.py:1955-1981 | Per subject, the conversion raises exactly on a blank subject whose result date does not parse. Otherwise the result date is gone and a blank subject gets the shifted result date. A subject without a result date is unchanged. Every other child keeps its text, no child other than `DATE_TIME_STAMP` is added, and a non-blank `DATE_TIME_STAMP` keeps its text. |
| Collection.CorrectAllFails | bin/redi.py:1952-1981 | The pass raises exactly when some subject needs a conversion that raises. |
| Collection.CorrectAllSpec | bin/redi.py:1951-1981 | A pass that does not raise has total = number of subjects, blank = number of blank subjects, blank &le; total. Every subject is rewritten as `CorrectDateSpec` says, including that its other children are kept. |
| Collection.CorrectAllAfterFailure | bin/redi.py:1952-1981 | Once the loop has raised, it leaves the remaining subjects as they were. |
| Collection.CorrectSubject | bin/redi.py:1953-1981 | The loop body computes exactly `CorrectDate` for one subject. |
| Collection.VerifyAndCorrectCollectionDate | bin/redi.py:1948-1986 | The subjects after the pass are those of `CorrectAll`, and it raises exactly when `CorrectAll` fails. On success the summary holds the total and blank counters. |
| Remap.LastItem | bin/redi.py:1173-1177 | Finds the last registry item with a research id, so a later item overrides an earlier one; None means no item has it. |
| Remap.RedcapDict | bin/redi.py:1173-1177 | A research id is a key exactly when it is non-empty and some item carries it. It maps to the record id of the last such item. |
| Remap.KeptIndicesSpec | bin/redi.py:1179-1193 | The positions of the surviving subjects are strictly increasing, number the subjects minus the bad ids, and include a position exactly when its subject is not an unknown id. |
| Remap.RemapSubjectsKept | bin/redi.py:1179-1193 | The remapped list has one entry per surviving position, each that subject renumbered through the dictionary. |
| Remap.RemapSubjectsSpec | bin/redi.py:1179-1193 | The surviving subjects are exactly those whose id is empty, missing or known, in their original order: the i-th output is the i-th such input with STUDY_ID replaced by its record id. As many subjects are removed as the bad-id count. |
| Remap.RemapSubjectChangesOnlyTheId | bin/redi.py:1183-1186 | A kept subject differs from the original only in its STUDY_ID. |
| Remap.RegistryExample | bin/redi.py:1173-1193 | With registry item ("999-0059", "1"): a subject with "999-0059" becomes "1", one with "999-0060" is dropped, and one with an empty id is kept. |
| Remap.ResearchIdToRedcapIdConverter | bin/redi.py:1137-1193 | Raises and changes nothing exactly when either field name is missing or empty. Otherwise the subjects are remapped through the registry dictionary. |
| Skeleton.ComponentFormsMeans | bin/redi.py:1373-1374 | A form has an entry after the first component loop exactly when some clinical component names it. |
| Skeleton.ComponentFieldsMeans | bin/redi.py:1376-1386 | A name is in a form's entry exactly when some component of that form lists it as its value, units or status field name. |
| Skeleton.FormTableKeys | bin/redi.py:1388-1401 | After the form loop, a form name has an entry exactly when a component names it or some form of that name has an included `form*` child. |
| Skeleton.FormTableValues | bin/redi.py:1388-1401 | A form's entry holds exactly the component field names plus the texts of the included `form*` children of every form of that name. The two `*Value` children are excluded. |
| Skeleton.FieldsOf | bin/redi.py:1403-1409 | One field with an empty value per name of the entry, each name exactly once. |
| Skeleton.AddFormChildren | bin/redi.py:1389-1401 | The loop over one form's children adds exactly its included `form*` texts to its name's entry, creating the entry when absent. |
| Skeleton.BuildForm | bin/redi.py:1414-1425 | Every declared event of the form is built with status "unsent" and the same empty fields. |
| Skeleton.NextForm | bin/redi.py:1388-1425 | Reading one form extends the dictionary as `FormTable` says. It raises exactly when the form has no name or its name has no entry. Otherwise it builds that form. |
| Skeleton.InitTable | bin/redi.py:1373-1374 | Raises exactly when a component has no form name. Otherwise it creates one empty entry per named form and no other entries. |
| Skeleton.AddComponent | bin/redi.py:1377-1386 | One component adds exactly its present value, units and status names to its form's entry. |
| Skeleton.FillTable | bin/redi.py:1376-1386 | The second component loop yields exactly the component table. |
| Skeleton.CreateEmptyEventsForOneSubject | bin/redi.py:1358-1430 | Raises exactly when a component names no form or some form fails. Otherwise it yields one form per form element, in order. Each form has every declared event "unsent" with one empty field per name of its entry. |
| Skeleton.CollectStudyIds | bin/redi.py:1449-1452 | Raises exactly when a subject has no STUDY_ID. Otherwise it yields the set of study ids, empty exactly when there are no subjects. |
| Skeleton.PersonsFor | bin/redi.py:1457-1469 | Exactly one person per distinct study id, each carrying the skeleton. |
| Skeleton.CreateEmptyEventTreeForStudy | bin/redi.py:1433-1472 | Raises exactly when there is no subject or one lacks a STUDY_ID. Otherwise each distinct study id gets exactly one person carrying the skeleton. |
| Merge.FirstField | bin/redi.py:1721 | Finds the first field of that name: its name matches and no earlier field has it. None means no field of the event has it. |
| Merge.Locate | bin/redi.py:1688-1700 | The located form belongs to a person with the subject's study id and has the subject's form name. |
| Merge.LocateNoneMeans | bin/redi.py:1688-1700 | Nothing is located exactly when no person with that study id has a form of that name. |
| Merge.WriteAnchorsFields | bin/redi.py:1717-1736 | The anchor loop keeps every field name. It writes the value into the value-named field, else the date into the date-named field, else the units into the units-named field, and leaves other fields alone. |
| Merge.WriteAnchorsNonEmpty | bin/redi.py:1717-1740 | Something non-empty was written exactly when some anchor-named field received a non-empty value. |
| Merge.WriteEventChanges | bin/redi.py:1717-1775 | The target event keeps its field names. A changed value belongs to an anchor-named field, or to a marker field once some anchor received a non-empty value. |
| Merge.WriteMarkersChanges | bin/redi.py:1740-1775 | The markers rename nothing and write only the completion field and the imported field, whether or not they raise. |
| Merge.WriteMarkersKeepsCompletion | bin/redi.py:1740-1771 | When the completion field exists and the imported field's name differs from it, it holds the form's completion value after the markers, even when the imported marker then raises: the write before the error is kept. |
| Merge.WriteMarkersMarks | bin/redi.py:1740-1775 | Markers written without error leave a non-empty completion value. If an imported field exists, it holds the form's non-empty imported value. |
| Merge.WriteEventMarkers | bin/redi.py:1736-1775 | When some anchor received a non-empty value and nothing raised, the completion marker is non-empty and the imported marker, if its field exists, holds the form's imported value. |
| Merge.MergeSubject | bin/redi.py:1631-1778 | Merging one subject keeps the number of persons. |
| Merge.MergeChecked | bin/redi.py:1660-1778 | Merging a subject with all required children keeps the number of persons. |
| Merge.MergeAll | bin/redi.py:1631-1778 | The loop keeps the number of persons. |
| Merge.MergeSubjectTarget | bin/redi.py:1631-1778 | Merging a subject leaves the tree unchanged, or changes just the fields of its target event: the event with its event name in its located form. |
| Merge.MergeSubjectShape | bin/redi.py:1631-1778 | The merge writes only into existing nodes. Every person, form, event, status and field name is kept, even when it raises. |
| Merge.MergeAllShape | bin/redi.py:1609-1778 | Over all subjects, the merge keeps the tree's shape. |
| Merge.MergeSkips | bin/redi.py:1632-1654 | A subject with an empty event name or the "undefined" form changes nothing and raises nothing. |
| Merge.MergeRaisesWithoutForm | bin/redi.py:1688-1700 | A subject whose study id has no form of its form name raises and changes nothing. |
| Merge.MergeSubjectWrites | bin/redi.py:1717-1775 | A field value the merge of one subject changes lies in its target event, and the field is named by an anchor or by a marker. |
| Merge.WriteAnchorLoop | bin/redi.py:1717-1736 | The anchor loop computes exactly `WriteAnchors`. |
| Merge.WriteEventFields | bin/redi.py:1717-1775 | The anchors, then the markers when something non-empty was written, exactly as `WriteEvent`: the fields written before a marker error are returned with the error. |
| Merge.CopySubject | bin/redi.py:1631-1778 | One subject in place: the tree and the raised error are those of `MergeSubject`. |
| Merge.CopyChecked | bin/redi.py:1660-1778 | A subject with all required children, handled in place as `MergeChecked` says. |
| Merge.CopyDataToPersonFormEventTree | bin/redi.py:1609-1778 | The tree after the loop is that of `MergeAll`, writes before an error included. It raises exactly when some subject raised. |
| Merge.MergeAllAfterError | bin/redi.py:1609-1778 | After the first error no later subject is merged. |
| Status.StatusTableMeans | bin/redi.py:1549-1578 | A text is a key of the status dictionary exactly when some component lists it in a child other than the form name and status tags. It is tied to the first such component's status field and value. |
| Status.StatusTableConsistent | bin/redi.py:1544-1578 | Every non-empty status field the dictionary ties a text to is among the status field names. |
| Status.SetStatusFor | bin/redi.py:1509-1518 | Keeps the event's field names. |
| Status.SetStat | bin/redi.py:1484-1506 | The loop keeps the event's field names. |
| Status.SetStatKeepsSources | bin/redi.py:1484-1506 | While the loop runs, only status fields change, so a source field keeps its value. |
| Status.SetStatJustified | bin/redi.py:1484-1506 | Every value the loop changes belongs to a status field. It is the status value that some blank, non-status field of the event ties to it. |
| Status.SetStatusForFirst | bin/redi.py:1513-1518 | The first field with the status field's name gets the status value. |
| Status.SetStatusForOther | bin/redi.py:1513-1518 | A field of another name is untouched. |
| Status.SetStatStepKeeps | bin/redi.py:1484-1506 | Visiting a field changes no other field unless it is a source tied to that field's name. |
| Status.SetStatStepWrites | bin/redi.py:1484-1506 | Visiting a source writes its status value into the first field of its status field's name. |
| Status.SetStatLastSourceWins | bin/redi.py:1484-1506 | A status field ends with the status value of the last source tied to it. |
| Status.FieldValuesEmpty | bin/redi.py:1589-1598 | An event is treated as holding data exactly when some field value is neither "" nor "None". |
| Status.UpdateForm | bin/redi.py:1584-1603 | Keeps the form's name and number of events. |
| Status.UpdatePerson | bin/redi.py:1584-1603 | Keeps the person's study id and number of forms. |
| Status.UpdateTree | bin/redi.py:1584-1603 | Keeps the number of persons. |
| Status.UpdateTreeShape | bin/redi.py:1584-1603 | The status fill keeps every node, name and status of the tree. |
| Status.UpdateTreeJustified | bin/redi.py:1521-1603 | A field value the fill changes belongs to an event holding some value. The field is a status field, and the new value is what the translation table ties to some blank, non-status field of that event. |
| Status.AddEntries | bin/redi.py:1565-1576 | The loop over one component's children adds exactly its entries not yet present. |
| Status.BuildStatusTable | bin/redi.py:1549-1578 | The dictionary loop yields exactly `StatusTable`. |
| Status.SetStatusForLoop | bin/redi.py:1509-1518 | The `set_status_for` loop computes exactly `SetStatusFor`. |
| Status.FirstFieldPrefix | bin/redi.py:1513-1518 | The first field of a name within a prefix is the first in the whole event. |
| Status.SetStatLoop | bin/redi.py:1475-1506 | The `setStat` loop computes exactly `SetStat` over all fields. |
| Status.FieldValuesLoop | bin/redi.py:1585-1596 | The value-concatenation loop computes exactly `FieldValues`. |
| Status.UpdateEventMethod | bin/redi.py:1584-1603 | One event, as `UpdateEvent`. |
| Status.UpdateFormMethod | bin/redi.py:1584-1603 | One form, as `UpdateForm`. |
| Status.UpdatePersonMethod | bin/redi.py:1584-1603 | One person, as `UpdatePerson`. |
| Status.UpdateStatusFieldValueInPersonFormEventTree | bin/redi.py:1521-1603 | The tree after the pass is every event updated through the status dictionary and status names read from the translation table. |
| Upload.LastField | bin/upload.py:55-57 | Finds the last field of a name; None means no field has it. |
| Upload.WithFieldsMeans | bin/upload.py:55-57 | Writing the fields in order leaves, for each name, the value of the last field of that name. The earlier keys are kept. |
| Upload.PayloadMeans | bin/upload.py:38-62 | The payload's keys are the def field, `redcap_event_name` and the field names. Each field name maps to the value of its last field (`redcap_event_name` to the event name, the def field to the study id, unless a field overrides them). |
| Upload.ErrorMessagesMeans | bin/upload.py:238-243 | There is one message per error record, in order, up to the first record missing a key. |
| Upload.HandleErrorsInRedcapXmlResponse | bin/upload.py:225-248 | The messages are appended to the report's errors only when the response has an "error" key and a records list. It always reports an error found. |
| Upload.RedcapClient.constructor | bin/upload.py:65 | A fresh client has sent nothing. |
| Upload.RedcapClient.SendDataToRedcap | bin/upload.py:184 | Sending appends the record to the client's log and returns the server's answer to it. |
| Upload.DataRepository.constructor | bin/redi.py:2018-2023 | A fresh repository holds no snapshot. |
| Upload.DataRepository.Store | bin/upload.py:192 | Storing appends a snapshot of the tree. |
| Upload.CheckFields | bin/upload.py:44-49 | True exactly when no field of the event has an empty name. |
| Upload.CheckForm | bin/upload.py:44-49 | True exactly when no field of the form's events has an empty name. |
| Upload.CheckPerson | bin/upload.py:44-49 | True exactly when no field of the person's events has an empty name. |
| Upload.CheckTree | bin/upload.py:44-49 | True exactly when no field anywhere in the tree has an empty name. |
| Upload.CreateImportDataJson | bin/upload.py:25-62 | Computes exactly `ImportDataJson`. It raises on a blank event name or a blank field name, and otherwise returns the record and whether some field holds data. |
| Upload.SendEvent | bin/upload.py:146-208 | One event in place: the tree, the repository, the client's log, the report and the stop flag are those `EventStep` gives. |
| Upload.SendForm | bin/upload.py:146-208 | The events loop of one form in place, as `EventsFrom`. |
| Upload.StartForm | bin/upload.py:124-137 | The start of a form as `FormStart`: its counters exist, at 0 unless already set. Tree, stores and log are unchanged. |
| Upload.SendPerson | bin/upload.py:120-208 | The forms loop of one person in place, as `FormsFrom`. |
| Upload.GenerateOutput | bin/upload.py:65-222 | The tree, the snapshots and the client's log after the run are those of `Output`. It returns the report on success and the exception otherwise, including the UnboundLocalError of the per-person log line when the first person has no forms. |
| UploadRuns.DeliverLogged | bin/upload.py:184 | Each request sends the event's own record and logs it behind the earlier ones. |
| UploadRuns.DeliverOrdered | bin/upload.py:108-192 | Requests follow the tree order, so no event is sent twice. |
| UploadRuns.AcceptedAtStep | bin/upload.py:184-192 | An event is accepted after one more request exactly when it already was or that request accepted it. |
| UploadRuns.MarkSentAt | bin/upload.py:185-191 | Marking sets that event's status to "sent", creating it if absent, and changes nothing else. |
| UploadRuns.DeliverTree | bin/upload.py:184-196 | After a request, the tree is the original one with every accepted event marked sent. A rejection leaves the status alone. |
| UploadRuns.AcceptedCountStep | bin/upload.py:192 | One more request adds one to the count of accepted requests exactly when it was accepted. |
| UploadRuns.DeliverStores | bin/upload.py:192 | There is one snapshot per accepted request, the last of them the current tree. |
| UploadRuns.DeliverReport | bin/upload.py:193-204 | The report's errors are the rejected requests' messages in order. Each counter counts the accepted requests with data for its form key (and study id), so a rejection adds no count. |
| UploadRuns.DeliverInv | bin/upload.py:182-204 | One request keeps the whole-run invariant: log, order, tree, snapshots and report. |
| UploadRuns.EventStepInv | bin/upload.py:146-208 | One event keeps the invariant. A sent event is skipped without a request. Under skip-blanks a blank event ends the form without a request. |
| UploadRuns.EventsFromInv | bin/upload.py:146-208 | The events loop of a form keeps the invariant. |
| UploadRuns.FormStartInv | bin/upload.py:124-137 | Starting a form keeps the invariant and makes no request. |
| UploadRuns.FormsFromInv | bin/upload.py:123-208 | The forms loop of a person keeps the invariant. |
| UploadRuns.PersonStepInv | bin/upload.py:108-208 | One person keeps the invariant. A person without study_id raises. |
| UploadRuns.FirstPersonWithoutFormsRaises | bin/upload.py:108-211 | A first person with a study_id and no forms is counted, then the run raises because `study_id_key`, read by the timing log line, was never bound; no request is made and the tree, snapshots and client log are unchanged. |
| UploadRuns.PersonStepOrder | bin/upload.py:108-114 | Each person visited adds one to the persons count, and its requests come before the next person's. |
| UploadRuns.PersonsFromInv | bin/upload.py:108-208 | The persons loop keeps the invariant and counts every person it visits. |
| UploadRuns.OutputInv | bin/upload.py:65-222 | Whether the run returns the report or raises, every request it made is sound. Each request sent, in tree order, the record of an unsent event with a study id and form name, skipping blank events under skip-blanks. Each accepted event is marked sent and stored. The errors are the rejection messages. The counters count accepted events with data. On success, `total_subjects` is the number of persons. |
| UploadProgress.OutputSendsEligible | bin/upload.py:107-165 | A run that ends without an exception sends a request for an event exactly when the event is unsent, and, under skip-blanks, holds data with no blank unsent event before it in its form. Every form of every person has its `Total_<form>_Forms` counter, overall and under its study id. |
| UploadProgress.PersonsFromSends | bin/upload.py:107-165 | The persons loop from a person on sends every eligible event of that person and of the later ones, and gives each of their forms its counter keys. |
| UploadProgress.FormsFromSends | bin/upload.py:123-165 | The forms loop sends every eligible event of the remaining forms and gives each of them its counter keys. |
| UploadProgress.EventsFromSends | bin/upload.py:146-165 | The events loop sends every eligible event from its start on. |
| UploadProgress.BlankCutsOff | bin/upload.py:161-165 | Under skip-blanks, no event after a blank unsent event of the form is eligible. |
| UploadProgress.PersonsFromExtends | bin/upload.py:107-208 | The persons loop only adds requests after the earlier ones and loses no counter key. |
| UploadProgress.FormsFromExtends | bin/upload.py:123-208 | The forms loop only adds requests and loses no counter key. |
| UploadProgress.EventsFromExtends | bin/upload.py:146-208 | The events loop only adds requests and loses no counter key. |
| UploadProgress.EventStepExtends | bin/upload.py:146-208 | One event only adds requests and loses no counter key. |
| UploadProgress.FormStartExtends | bin/upload.py:124-137 | Starting a form adds no request and loses no counter key. |
| UploadProgress.DeliverExtends | bin/upload.py:182-204 | One request is appended after the earlier ones and no counter key is lost. |
| UploadProgress.ExtendsTransitive | bin/upload.py:107-208 | A later state of a later state of the run is a later state of the run. |
| UploadProgress.HasRequestExtends | bin/upload.py:107-208 | A request made stays among the requests of every later state. |
| UploadProgress.KeysAtExtends | bin/upload.py:129-137 | A form whose counter keys exist keeps them in every later state. |
| UploadRuns.NothingLeftToSend | bin/upload.py:146-149 | Re-running over a tree whose events are all sent makes no request, leaves the tree, the snapshots and the client's log unchanged, reports no errors and leaves every counter at 0. |

## Left out

- XML parsing, serialisation and XPath are not modelled. Elements are maps from tag to text, and the tree is nested sequences. A child tag repeated within one element is not modelled (`find` returns the first).
- A missing text (None) and an empty text ("") are the same value in the model. So a text that is None and an empty string cannot be told apart; the model reads both as "", as `convert_none_type_object_to_empty_string` does.
- How lxml's iterators behave when the current element is removed during iteration is not modelled. This concerns the remap loop (subjects removed during `data.iter`) and the form-child loop of the skeleton. The model visits every element once, in document order.
- Renaming.ReplaceFieldsInRawXml: starts from the parsed (source, target) pairs. Only the subject's first source child is renamed.
- Merge: the XPath matches every person, form and event of that name, and the model writes only the first of each. Duplicate study ids, form names or event names in the tree are not modelled.
- Merge.MergeSubject: error messages are approximated. The message for a missing value, date or units child is "Missing required field" without the field's name. Python's own TypeError and AttributeError texts are paraphrased. The same holds for the messages of the other passes.
- Date formatting is not modelled. The collection-date backfill's `strptime`, minus four days and the printing of the shifted datetime with `str()` (which includes the time part) are the `shift` parameter of `Collection`, which yields None where parsing raises. `update_time_stamp` (bin/redi.py:737-760), which only reformats `DATE_TIME_STAMP` into `timestamp`, is not part of this model; the sort and sequencing read `timestamp` as given.
- `add_elements_to_tree` (bin/redi.py:665-683) is not part of this model. The passes start from the children the subjects have. A lookup or date pass raises, as the source does, at the first subject without the child it sets (`Enrichment.LookupPass`, `Enrichment.DatePass`); after `add_elements_to_tree` every subject has those children and no pass raises for that reason.
- The remote REDCap service is the `respond` parameter and a decoded `ErrorBody`. The rate limiting (`time.sleep`), `event_count`, the log every 50 requests and the `ast.literal_eval` decoding are left out. An answer that does not decode is `Rejected(None)` and raises; any non-REDCap exception is `Failed` and raises.
- The `lab_id` entry of `subject_details` is not modelled, because the person's XML attribute is not part of the tree.
- Upload.GenerateOutput: the persons, forms and events loops iterate over the tree as it was at the start. Status updates change only statuses, which the loops do not re-read.
- Remap.ResearchIdToRedcapIdConverter: the mapping-document checks and the registry query are replaced by the two field names and the item list as parameters. The client construction, `sys.exit` and the e-mail on connection failure are left out. The bad-id counter is the `CountUnknown` function, since the source only logs it.
- Sequencing.LoadEventTable: a form's events are given as their names. An `event` element without a `name` child, on which the source raises, is not modelled.
- Sequencing.UpdateEventName: the `distinct_value` Counter and its log lines are left out. The `multiple_values_alert` list is therefore always empty, as in the source.
- The "tree is empty" exceptions for a missing root are left out: a document always has a root in the model.
- Skeleton.CreateEmptyEventsForOneSubject: the skeleton's field order is the order in which a set is iterated, which Python does not fix. The contract states each name once, in any order.
- Rules (`load_rules`, `run_rules`), settings parsing, `redi/input.py`, reports, e-mail, logging, batch database, SFTP and the `PersonFormEventsRepository` file operations are left out (foreign code or I/O). The repository is a list of snapshots.
- Where the documented behaviour and the code disagree, the model follows the code. One case is a single group with three distinct timestamps and two declared events. It is described as raising an overrun alert, but the code raises none: the overrun check is `index > len` on a 0-based index, and the final group is never checked (`Sequencing.OverrunReportedAtNextGroup`, `Sequencing.OneGroupNoAlerts`).
