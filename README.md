# Event console: check-in, attendance and certificates — a Dafny model

This project models the core of a React console for a hackathon. The console
runs over a hosted document store. Teams register as documents of an attendee
collection: the leader sits in the root fields and the other members in a
`members` array. Older imports use flat "Team Leader Name" and "Team Member i"
columns instead.

The model covers eight parts of the console:

- **Check-in dashboard** (`checkin_dashboard.dfy`). It flattens every team
  document into check-in entities, sorts them by name and counts them. It
  offers a QR code per entity. On confirmation it toggles one entity's
  check-in flag in the store.
- **Door scanner** (`scanner.dfy`). It looks a scanned code up as a document
  path under the attendee collection. None, one or several checkable entities give an error, a direct
  check-in (or duplicate notice), or a selection list.
- **Public attendance list** (`public_attendance.dfy`). It flattens the
  snapshot into one row per named person and groups the rows by team. It
  orders groups by team name, and each group leader first, then by name. A
  search term filters the rows.
- **Event editor** (`event_editor.dfy`). One event record, edited key by key,
  with helpers for its list fields.
- **Certificate designer** (`certificate_admin.dfy`). A template image plus
  text fields placed on an 800 by 600 canvas, saved into one configuration
  document.
- **Certificate claim** (`certificate_claim.dfy`). An e-mail is looked up in
  the RSVP collection and then in the imported registration list. The record
  can be corrected and written back, and the certificate is downloaded under a
  file name built from the participant's name.
- **Draggable field label** (`draggable_field.dfy`). It can be moved inside the
  canvas and reports its new position on release.
- **Canvas painter** (`certificate_canvas.dfy`). It draws the template and one
  styled line of text per field.

Three supporting modules:

- `json.dfy`: JavaScript values as stored in documents, with the conversions
  the pages rely on (truthiness, `||`, spreading, template-literal text,
  `toLowerCase`, `includes`, `trim`).
- `ordering.dfy`: the string comparison used for sorting, and a stable
  insertion sort proved sorted and a permutation.
- `store.dfy`: the store calls the pages make, over an in-memory collection.

The code is modelled in the form it has:

- **Pure computations** (entity extraction, grouping, filtering, field-list
  edits, lookups) are functions with lemmas.
- **Snapshot callbacks that push onto a list in a loop** are methods with loop
  invariants, proved equal to those functions.
- **Page state** (the scanner's result and selection list, the designer's
  fields and selection, the claim page's step and user record, the editor's
  record, a dragged label, the drawing context) is a class whose methods
  update its fields.
- **Store writes** change the `docs` map of a `Store.Collection`.

## Model

| member | source | states |
|---|---|---|
| Json.Or | src/pages/CheckInDashboard.jsx:44-45 | `a \|\| b` is one of its two operands; it is truthy exactly when either operand is; a truthy left operand is kept, otherwise the right operand |
| Json.Merge | src/pages/CertificateAdmin.jsx:107 | an object spread `{...d, ...u}` has the keys of both; `u`'s values win, `d`'s survive where `u` is silent |
| Json.NatTextDigits | src/pages/Scanner.jsx:99-100 | the decimal text of a number (used in the slot keys `Team Member i`) is a non-empty run of digits, one digit below 10 |
| Json.Lower | src/pages/PublicAttendance.jsx:78-79 | `toLowerCase` keeps the length and lowercases each ASCII capital, leaving other characters |
| Json.ContainsEmpty | src/pages/PublicAttendance.jsx:78-79 | every string includes the empty search term |
| Json.ContainsAt | src/pages/PublicAttendance.jsx:78-79 | `includes` holds exactly when the term occurs at some position of the string |
| Json.TrimBlank | src/pages/CertificateClaim.jsx:109 | `trim()` is empty exactly when every character is white space |
| Ordering.TextLeTotal | src/pages/CheckInDashboard.jsx:84 | any two names are comparable under the sort's string order |
| Ordering.TextLeTransitive | src/pages/PublicAttendance.jsx:57 | the string order is transitive |
| Ordering.TextLeAntisymmetric | src/pages/PublicAttendance.jsx:64 | two names ordered both ways are equal |
| Ordering.Insert | src/pages/CheckInDashboard.jsx:84 | inserting an element grows the list by one and adds exactly that element to its multiset |
| Ordering.SortBy | src/pages/CheckInDashboard.jsx:84 | sorting keeps the length and the multiset of elements (a permutation) |
| Ordering.InsertSorted | src/pages/PublicAttendance.jsx:57 | inserting into a sorted list under a consistent comparator keeps it sorted |
| Ordering.SortBySorted | src/pages/PublicAttendance.jsx:57-66 | the sort's result is ordered by any consistent comparator it is given |
| Store.Collection.constructor | src/pages/Scanner.jsx:88 | a collection starts with the given documents |
| Store.Collection.GetDoc | src/pages/Scanner.jsx:89-91 | `getDoc` returns the stored document, or nothing when it does not exist |
| Store.Collection.UpdateDoc | src/pages/Scanner.jsx:116 | `updateDoc` succeeds exactly on an existing document, merges the updates into its top-level fields and changes nothing else; on a missing document nothing changes |
| Store.Collection.SetDocMerge | src/pages/CertificateAdmin.jsx:124-128 | `setDoc` with merge creates the document or merges the fields into it, and touches no other document |
| CheckInDashboard.EventName | src/pages/CheckInDashboard.jsx:44 | the event name is truthy: `event` when truthy, else `eventName` when truthy, else "Innovate 2026" |
| CheckInDashboard.TeamName | src/pages/CheckInDashboard.jsx:45 | the team is truthy; it is the stored `team` exactly when that is truthy, and "Individual" when it is not |
| CheckInDashboard.CollectStep | src/pages/CheckInDashboard.jsx:41-82 | walking one more document appends exactly that document's entities |
| CheckInDashboard.NameLeIsTotalPreorder | src/pages/CheckInDashboard.jsx:84 | comparing entities by name is a consistent (total, transitive) comparator |
| CheckInDashboard.PushDocument | src/pages/CheckInDashboard.jsx:42-81 | the per-document callback appends the named leader, then each named member in array order, to the list built so far |
| CheckInDashboard.Normalize | src/pages/CheckInDashboard.jsx:32-85 | the listener's list is the snapshot's entities sorted by name: a permutation of them, ordered by name |
| CheckInDashboard.MemberEntitiesCount | src/pages/CheckInDashboard.jsx:64-81 | the members give one entity per named entry |
| CheckInDashboard.MemberEntitiesFromNamed | src/pages/CheckInDashboard.jsx:65-79 | every member entity is built from a named entry, at the index it carries |
| CheckInDashboard.MemberEntitiesAscending | src/pages/CheckInDashboard.jsx:65-80 | member entities keep array order: their indices strictly ascend |
| CheckInDashboard.MemberEntitiesCover | src/pages/CheckInDashboard.jsx:65-80 | every named member entry has an entity carrying its index |
| CheckInDashboard.DocEntitiesCount | src/pages/CheckInDashboard.jsx:48-81 | a document yields one entity for a named root plus one per named member |
| CheckInDashboard.LeaderShape | src/pages/CheckInDashboard.jsx:48-61 | the leader entity exists exactly when the root name is truthy; it carries the document id, the `_leader` key, the ticket or else the document id as barcode, the team fallback and the leader role, and it comes first |
| CheckInDashboard.CountStatusSplit | src/pages/CheckInDashboard.jsx:25-26 | checked-in and pending counts add up to the list length |
| CheckInDashboard.StatsOf | src/pages/CheckInDashboard.jsx:23-27 | the header's total is the list length and equals checked-in plus pending |
| CheckInDashboard.CodeToEncode | src/pages/CheckInDashboard.jsx:100 | the QR text is the barcode when that is truthy and not "N/A"; a falsy or "N/A" barcode gives the document id; so it is never the "N/A" placeholder unless the id is |
| CheckInDashboard.QrCodeOfTicketlessMember | src/pages/CheckInDashboard.jsx:100 | a member without a ticket gets its parent document's id as its code |
| CheckInDashboard.QrCodeOfLeader | src/pages/CheckInDashboard.jsx:100 | the leader's code is its ticket, or else the document id |
| CheckInDashboard.FlipMember | src/pages/CheckInDashboard.jsx:133-139 | the rewritten member entry has its flag negated, a check-in time exactly when now checked in, and all its other fields kept |
| CheckInDashboard.LeaderUpdate | src/pages/CheckInDashboard.jsx:117-120 | the leader write sets exactly the negated flag and a timestamp when checking in, null when checking out |
| CheckInDashboard.ToggleCheckIn | src/pages/CheckInDashboard.jsx:108-148 | the store after a toggle: nothing without confirmation or document; a leader's root fields updated; a member's array re-read and rewritten |
| CheckInDashboard.MemberToggleFrame | src/pages/CheckInDashboard.jsx:125-141 | a member toggle changes only that document's `members[i]`: other documents, other root fields and other entries are kept, and the entry's flag is negated |
| CheckInDashboard.ToggleSpreadsString | src/pages/CheckInDashboard.jsx:129-141 | a `members` value that is a string is spread into one-character strings; the indexed one is rewritten with its flag and time, and the array is written back |
| CheckInDashboard.StringMemberUpdate | src/pages/CheckInDashboard.jsx:129-141 | the `{ members }` write for a string `members` value is its characters with the indexed one flipped |
| CheckInDashboard.MemberToggleNoWrite | src/pages/CheckInDashboard.jsx:126-132 | a missing document or a missing or falsy indexed entry writes nothing |
| CheckInDashboard.ToggleFlipsMemberEntity | src/pages/CheckInDashboard.jsx:125-141 | re-deriving the toggled document gives the same member entity with its flag negated, every other member entity and the leader unchanged |
| CheckInDashboard.SameRootSameEntities | src/pages/CheckInDashboard.jsx:44-78 | entities depend on a document only through its root fields other than `members` |
| CheckInDashboard.ToggleFlipsLeaderEntity | src/pages/CheckInDashboard.jsx:116-120 | a leader toggle re-derives as the same leader with its flag negated, members untouched, and a check-in time exactly when checked in |
| Scanner.ExtractCandidates | src/pages/Scanner.jsx:93-102 | the pushes and the slot loop build exactly the document's entity list |
| Scanner.CheckInUpdate | src/pages/Scanner.jsx:139-142 | a check-in writes exactly the entity's flag (true) and its `_at` timestamp |
| Scanner.CandidatesShape | src/pages/Scanner.jsx:95-101 | a document has at most six entities; a truthy root name gives exactly the root entity |
| Scanner.SlotCandidatesLength | src/pages/Scanner.jsx:99-101 | slots 1 to n give at most n entities |
| Scanner.CandidatesReflectStore | src/pages/Scanner.jsx:96-100 | each entity's status is the truthiness of its own flag field |
| Scanner.SlotsReflectStore | src/pages/Scanner.jsx:99-101 | each slot entity's status is the truthiness of its own flag field |
| Store.PlainIdAccepted | src/pages/Scanner.jsx:88 | an id without a separator is one path segment, so `doc` accepts it |
| Store.DocKey | src/pages/Scanner.jsx:88 | `doc` names a document of the collection itself exactly when it accepts the id and the id has one segment; that document's id is plain, and a plain id names itself |
| Store.LeadingSeparatorKey | src/pages/Scanner.jsx:88 | "/" before a plain id names the same document as the id |
| Store.TrailingSeparatorKey | src/pages/Scanner.jsx:88 | "/" after a plain id names the same document as the id |
| Store.BothSeparatorsKey | src/pages/Scanner.jsx:88 | "/" on both sides of a plain id names the same document as the id |
| Scanner.ScanPathErrors | src/pages/Scanner.jsx:86-134 | a code `doc` refuses shows "Error processing check-in."; any other code naming no document of the collection itself names a subcollection document and shows "Attendee not found."; neither writes |
| Scanner.SameDocumentScan | src/pages/Scanner.jsx:86-134 | two codes naming the same document write the same check-in and show the same duplicate or success screen |
| Scanner.ScanAroundSeparators | src/pages/Scanner.jsx:86-134 | a code with "/" before or after it, or both, checks in the same document as the plain code |
| Scanner.ScanPathExamples | src/pages/Scanner.jsx:86-134 | the empty code and "a/b" are refused; "a/b/c" is reported as not found |
| Scanner.ScanErrors | src/pages/Scanner.jsx:104-129 | for a code naming a document of the collection: a missing document is "Attendee not found.", a document without entities "Empty Record Found"; neither writes |
| Scanner.ScanSeveral | src/pages/Scanner.jsx:119-122 | several entities open the selection list with all of them and the code; no write |
| Scanner.ScanSingle | src/pages/Scanner.jsx:110-118 | one entity: a set flag is a duplicate with no write; a clear flag is a success that sets the flag in that document only |
| Scanner.MarkField | src/pages/Scanner.jsx:144-145 | marking a field keeps the list length |
| Scanner.SlotKeysEnd | src/pages/Scanner.jsx:100 | slot flag keys end in `n` and slot name keys in a digit |
| Scanner.FlagKeyEnd | src/pages/Scanner.jsx:96-100 | every flag key ends in `n` |
| Scanner.GetAfterCheckIn | src/pages/Scanner.jsx:116 | a check-in write leaves every other key not ending in `t` as it was |
| Scanner.SlotsAfterCheckIn | src/pages/Scanner.jsx:99-116 | after checking in a flag, the slot entities re-read are the old ones with that flag set |
| Scanner.MarkFieldConcat | src/pages/Scanner.jsx:144-145 | marking distributes over concatenation |
| Scanner.CandidatesAfterCheckIn | src/pages/Scanner.jsx:93-116 | after checking in a flag, the entity list re-read is the old one with exactly that flag's entities set |
| Scanner.CandidateFieldsAreFlags | src/pages/Scanner.jsx:96-100 | every entity's field is a flag key |
| Scanner.SlotFieldsAreFlags | src/pages/Scanner.jsx:100 | every slot entity's field is a slot flag key |
| Scanner.ScanTwice | src/pages/Scanner.jsx:110-118 | scanning the same single-entity code twice checks in once, then reports a duplicate |
| Scanner.MarkOne | src/pages/Scanner.jsx:144-146 | with distinct fields, marking one entity's field sets exactly that entity |
| Scanner.CandidateFieldsDistinct | src/pages/Scanner.jsx:96-100 | no two entities of a document share a flag field |
| Scanner.SlotFieldsDistinct | src/pages/Scanner.jsx:99-101 | slot entities carry flags of their own slots, all distinct |
| Scanner.CheckInOne | src/pages/Scanner.jsx:139-146 | checking in entity `i` sets its status and no other: the list re-read from the store equals the locally updated selection list |
| Scanner.ScannerPage.constructor | src/pages/Scanner.jsx:86 | the page starts with no result and no selection list |
| Scanner.ScannerPage.HandleScan | src/pages/Scanner.jsx:86-134 | the store and screen after a scan: error, duplicate, success with its write, or the selection list; an open list always shows the stored entities |
| Scanner.ScannerPage.CheckInMember | src/pages/Scanner.jsx:136-151 | checks one listed entity in, in the store and in the list, and the list stays equal to the stored entities |
| Scanner.ScannerPage.Reset | src/pages/Scanner.jsx:153-157 | clears the result and the selection list |
| PublicAttendance.FlattenStep | src/pages/PublicAttendance.jsx:19-44 | walking one more document appends exactly that document's rows |
| PublicAttendance.PushRows | src/pages/PublicAttendance.jsx:36-43 | one document's pushes append its leader row when named, then its named members in order |
| PublicAttendance.PushMembers | src/pages/PublicAttendance.jsx:39-43 | the `forEach` over a members array appends each named member's row in order |
| PublicAttendance.MemberRowsStep | src/pages/PublicAttendance.jsx:40-42 | one more array element adds that element's row, if any |
| PublicAttendance.PushMember | src/pages/PublicAttendance.jsx:23-34 | one member's push appends a row exactly when its name is truthy |
| PublicAttendance.FlattenSnapshot | src/pages/PublicAttendance.jsx:18-44 | the loop builds exactly the flattened row list of the snapshot |
| PublicAttendance.DocRowsShape | src/pages/PublicAttendance.jsx:23-43 | every row has a non-empty name and team and the id `docId_name`; the first row is a leader exactly when the root name is truthy; later rows are not leaders |
| PublicAttendance.MemberRowsShape | src/pages/PublicAttendance.jsx:39-43 | member rows are non-leaders with non-empty names and teams, at most one per element |
| PublicAttendance.TruthyText | src/pages/PublicAttendance.jsx:24 | a truthy value never renders as empty text |
| PublicAttendance.AddToGroups | src/pages/PublicAttendance.jsx:48-54 | one push adds at most one group |
| PublicAttendance.NamesIndex | src/pages/PublicAttendance.jsx:50-56 | the dictionary's keys are the groups' team names, position by position |
| PublicAttendance.AddToGroupsSpec | src/pages/PublicAttendance.jsx:48-54 | a row joins the group of its team, or opens a new group at the end; other groups are untouched, names stay distinct, the total grows by one |
| PublicAttendance.AddToGroupsSize | src/pages/PublicAttendance.jsx:53 | each push adds exactly one row to the total |
| PublicAttendance.AddToGroupsFrame | src/pages/PublicAttendance.jsx:50-53 | which group a row goes to, and that the other groups are unchanged |
| PublicAttendance.AddToGroupsDistinct | src/pages/PublicAttendance.jsx:50-52 | team names stay distinct |
| PublicAttendance.OfTeamStep | src/pages/PublicAttendance.jsx:53 | one more row adds itself to its own team's rows only |
| PublicAttendance.GroupedPartitions | src/pages/PublicAttendance.jsx:47-56 | the grouping partitions the rows: distinct names, each group exactly its team's rows in order, every row covered, totals equal, no empty group |
| PublicAttendance.PartitionStep | src/pages/PublicAttendance.jsx:48-54 | one push keeps the dictionary a partition of the rows pushed so far |
| PublicAttendance.PartitionMembers | src/pages/PublicAttendance.jsx:53 | after a push every group still holds exactly its team's rows |
| PublicAttendance.PartitionCovers | src/pages/PublicAttendance.jsx:50-52 | after a push every row pushed so far still has a group |
| PublicAttendance.OfTeamAbsent | src/pages/PublicAttendance.jsx:50 | a team without a group has no rows |
| PublicAttendance.OfTeamEmpty | src/pages/PublicAttendance.jsx:53 | rows of other teams contribute nothing to a team |
| PublicAttendance.AddToGroupsNew | src/pages/PublicAttendance.jsx:50-53 | a row of a new team opens a one-row group at the end |
| PublicAttendance.AddToGroupsExisting | src/pages/PublicAttendance.jsx:53 | a row of an existing team is appended to that group only |
| PublicAttendance.PushToGroup | src/pages/PublicAttendance.jsx:49-53 | the dictionary-and-key-order state after one push represents the grouping with that row added |
| PublicAttendance.GroupRows | src/pages/PublicAttendance.jsx:47-56 | the grouping loop followed by `Object.values` gives exactly the grouping of the rows, in order of first appearance |
| PublicAttendance.GroupLeIsTotalPreorder | src/pages/PublicAttendance.jsx:57 | the group comparator is consistent |
| PublicAttendance.MemberLeIsTotalPreorder | src/pages/PublicAttendance.jsx:61-65 | the member comparator (leader first, then name) is consistent |
| PublicAttendance.OnSnapshot | src/pages/PublicAttendance.jsx:17-69 | the listener's result is the arrangement of the snapshot's flattened rows |
| PublicAttendance.ArrangeSpec | src/pages/PublicAttendance.jsx:46-66 | the shown groups are in team-name order with distinct names; each holds a permutation of exactly its team's rows, leaders first then by name; no group is empty and no row is lost |
| PublicAttendance.ArrangeOrder | src/pages/PublicAttendance.jsx:57 | groups are sorted by team name and their names stay distinct |
| PublicAttendance.ArrangeGroup | src/pages/PublicAttendance.jsx:60-66 | each arranged group is its team's rows, sorted and non-empty |
| PublicAttendance.ArrangeCovers | src/pages/PublicAttendance.jsx:47-57 | every row's team has an arranged group |
| PublicAttendance.SortedDistinct | src/pages/PublicAttendance.jsx:57 | sorting groups with distinct names keeps them distinct |
| PublicAttendance.DistinctOnce | src/pages/PublicAttendance.jsx:56 | a group with a distinct name occurs once |
| PublicAttendance.LeadersFirst | src/pages/PublicAttendance.jsx:62-63 | in a sorted group every leader comes before every non-leader |
| PublicAttendance.FilterMembers | src/pages/PublicAttendance.jsx:77-80 | filtering never adds rows |
| PublicAttendance.FilterMembersKeeps | src/pages/PublicAttendance.jsx:77-80 | a row survives exactly when its name or its group's team contains the term, case-insensitively |
| PublicAttendance.FilteredGroupsShape | src/pages/PublicAttendance.jsx:75-81 | every shown group is an input group with its rows filtered, non-empty; never more groups than the input |
| PublicAttendance.FilterMembersAppend | src/pages/PublicAttendance.jsx:77-80 | filtering a concatenation filters each part and concatenates: kept rows keep their order and multiplicity |
| PublicAttendance.FilteredGroupsAppend | src/pages/PublicAttendance.jsx:75-81 | the shown groups of a concatenation are each part's in turn: groups keep their input order |
| PublicAttendance.FilteredGroupsKeeps | src/pages/PublicAttendance.jsx:75-81 | every input group with a matching row is shown, holding its matching rows |
| PublicAttendance.EmptyTermKeepsMembers | src/pages/PublicAttendance.jsx:77-80 | the empty term keeps every row |
| PublicAttendance.EmptyTermKeepsGroups | src/pages/PublicAttendance.jsx:75-81 | with an empty term, non-empty groups are shown as they are |
| PublicAttendance.TeamMatchKeepsAll | src/pages/PublicAttendance.jsx:79 | when the team name contains the term, the whole group is shown |
| PublicAttendance.FilterAll | src/pages/PublicAttendance.jsx:77-80 | when every row matches, the filter keeps them all in order |
| EventEditor.DefaultRecord | src/pages/EventEditor.jsx:14-24 | the starting record has exactly the nine keys, with its title, empty texts, empty dates and empty lists |
| Json.Items | src/pages/EventEditor.jsx:59-60 | spreading `v \|\| []`: none for a falsy value, an array's elements, a string's one-character strings, and a throw for any other truthy value |
| Json.Chars | src/pages/EventEditor.jsx:59-60 | a string spreads into its one-character strings |
| EventEditor.SpliceStart | src/pages/EventEditor.jsx:71 | where `splice` starts always lies within the list |
| EventEditor.SetFieldFrame | src/pages/EventEditor.jsx:50-52 | `handleChange` sets one key and keeps every other |
| EventEditor.SetNestedFrame | src/pages/EventEditor.jsx:54-56 | `handleNestedChange` sets one field of one nested object and keeps the other fields and keys |
| EventEditor.AddedItemSpec | src/pages/EventEditor.jsx:59-61 | `addItem` appends the template at the end, a missing list counting as empty; other keys are kept |
| EventEditor.UpdatedItemSpec | src/pages/EventEditor.jsx:63-67 | `updateItem` sets one field of one entry; length, other entries, the entry's other fields and other keys are kept |
| EventEditor.SplicedInRange | src/pages/EventEditor.jsx:71 | an index inside the list removes exactly that entry and keeps the others in order |
| EventEditor.SplicedPastEnd | src/pages/EventEditor.jsx:71 | an index at or past the end removes nothing |
| EventEditor.SplicedNegative | src/pages/EventEditor.jsx:71 | a negative index counts from the end, and one before the start removes the first entry |
| EventEditor.RemovedItemFrame | src/pages/EventEditor.jsx:69-73 | `removeItem` changes only its own key, to the spliced list |
| EventEditor.EditorPage.constructor | src/pages/EventEditor.jsx:14-24 | the page starts with the default record, loading, not crashed |
| EventEditor.EditorPage.Load | src/pages/EventEditor.jsx:26-36 | a stored record replaces the default wholesale; an absent one leaves it; loading ends |
| EventEditor.EditorPage.Save | src/pages/EventEditor.jsx:38-48 | a successful save merges the record into the event document, creating it when missing; a failed one leaves the store as it was |
| EventEditor.EditorPage.HandleChange | src/pages/EventEditor.jsx:50-52 | the record becomes the one-key update of the old record |
| EventEditor.EditorPage.HandleNestedChange | src/pages/EventEditor.jsx:54-56 | the record becomes the nested update of the old record |
| EventEditor.EditorPage.AddItem | src/pages/EventEditor.jsx:59-61 | the record gains the appended entry; a list that cannot be spread throws inside the state updater, so the page crashes and nothing else changes |
| EventEditor.EditorPage.UpdateItem | src/pages/EventEditor.jsx:63-67 | the record becomes the one-entry update of the old record |
| EventEditor.EditorPage.RemoveItem | src/pages/EventEditor.jsx:69-73 | the record becomes the spliced one, or is kept when the spread throws |
| CertificateAdmin.NewField | src/pages/CertificateAdmin.jsx:90-101 | a new field has the clock reading as id, the lowercased type as key and the type as label; it is centred on the canvas, bold black 24px Arial |
| CertificateAdmin.UpdateFields | src/pages/CertificateAdmin.jsx:106-108 | updating keeps the number of fields |
| CertificateAdmin.DeleteFields | src/pages/CertificateAdmin.jsx:110-111 | deleting never adds fields |
| CertificateAdmin.Without | src/pages/CertificateAdmin.jsx:217 | removing one key keeps exactly the other keys |
| CertificateAdmin.UpdateFieldsSpec | src/pages/CertificateAdmin.jsx:106-108 | fields with the id get the updates merged in; the others, and the order, are kept |
| CertificateAdmin.DeleteFieldsSpec | src/pages/CertificateAdmin.jsx:110-111 | exactly the fields with another id are kept; afterwards none has the id; with no match the list is unchanged |
| CertificateAdmin.DeleteFieldsAppend | src/pages/CertificateAdmin.jsx:110-111 | filtering a concatenation filters each part and concatenates: the kept fields keep their order and multiplicity |
| CertificateAdmin.FindFieldSpec | src/pages/CertificateAdmin.jsx:185 | `find` gives nothing exactly when no field has the id, otherwise the first that has it |
| CertificateAdmin.AddedFieldSelected | src/pages/CertificateAdmin.jsx:102-103 | after adding a field with a fresh id, the selection shows that field |
| CertificateAdmin.FindAppend | src/pages/CertificateAdmin.jsx:102-103 | finding a fresh id after an append gives the appended field |
| CertificateAdmin.PreviewKeysSpec | src/pages/CertificateAdmin.jsx:217 | the preview shows every field key once, and nothing else |
| CertificateAdmin.PreviewKeysOrder | src/pages/CertificateAdmin.jsx:217 | the preview keys come in the order in which each key first occurs among the fields |
| CertificateAdmin.WithoutInFirstOrder | src/pages/CertificateAdmin.jsx:217 | dropping a key from a list ordered by first occurrence keeps it so ordered |
| CertificateAdmin.FirstKeyAt | src/pages/CertificateAdmin.jsx:217 | the first occurrence of a key is a field carrying it, or past the end |
| CertificateAdmin.WithoutDistinct | src/pages/CertificateAdmin.jsx:217 | removing a key from a duplicate-free list keeps it duplicate-free |
| CertificateAdmin.Designer.constructor | src/pages/CertificateAdmin.jsx:13-18 | the designer starts with no template, no fields, no selection and no status |
| CertificateAdmin.Designer.OnConfigSnapshot | src/pages/CertificateAdmin.jsx:23-28 | a stored configuration replaces the template (`imageUrl \|\| ""`) and the field list; a missing one changes nothing |
| CertificateAdmin.Designer.UploadTemplate | src/pages/CertificateAdmin.jsx:37-86 | the template becomes the accepted upload, and nothing else changes |
| CertificateAdmin.Designer.AddField | src/pages/CertificateAdmin.jsx:90-104 | the new field is appended and selected |
| CertificateAdmin.Designer.UpdateField | src/pages/CertificateAdmin.jsx:106-108 | the field list becomes the updated list, and nothing else changes |
| CertificateAdmin.Designer.DeleteField | src/pages/CertificateAdmin.jsx:110-113 | the field list loses the id, and the selection is cleared exactly when it was that id |
| CertificateAdmin.Designer.Select | src/pages/CertificateAdmin.jsx:298 | selecting sets the selection only |
| CertificateAdmin.Designer.SaveConfig | src/pages/CertificateAdmin.jsx:115-142 | without a template nothing is written; otherwise the template, fields and time are merged into the configuration document and the status is "saved", or "error" with the store unchanged |
| CertificateAdmin.Designer.StatusTimerFired | src/pages/CertificateAdmin.jsx:134 | the timer clears the status only |
| CertificateAdmin.StoredFields | src/pages/CertificateAdmin.jsx:27 | `data.fields \|\| []` reads an array's entries as objects, one per entry, and anything else as no fields |
| CertificateAdmin.ObjectsOf | src/pages/CertificateAdmin.jsx:27 | each entry is read as its own properties |
| CertificateAdmin.ConfigRecord | src/pages/CertificateAdmin.jsx:124-128 | the saved record has exactly `imageUrl`, `fields` and `updatedAt`, and reading its fields back gives the saved fields |
| CertificateAdmin.AsValues | src/pages/CertificateAdmin.jsx:126 | the fields are stored as one object each |
| CertificateCanvas.TextChoice | src/components/CertificateCanvas.jsx:35 | the text is the data value under the key when truthy, else the label when truthy, else "Sample Text"; never empty |
| CertificateCanvas.UnstyledField | src/components/CertificateCanvas.jsx:37-40 | a field with no style of its own is drawn in "normal 20px Arial", black, centred, middle baseline |
| CertificateCanvas.StyledFont | src/components/CertificateCanvas.jsx:37 | a field's own weight, size and family are joined as "weight sizepx family" |
| CertificateCanvas.FieldPlace | src/components/CertificateCanvas.jsx:34-46 | each field is drawn at its own position with its resolved text and font, middle baseline |
| CertificateCanvas.EachShape | src/components/CertificateCanvas.jsx:34 | `forEach` visits each field once, in order |
| CertificateCanvas.FieldDrawingsShape | src/components/CertificateCanvas.jsx:34-47 | one drawing per field, in field order |
| CertificateCanvas.FrameNotLoaded | src/components/CertificateCanvas.jsx:22-29 | until the template loads only the clear happens |
| CertificateCanvas.FrameLoaded | src/components/CertificateCanvas.jsx:22-47 | once it loads: the clear, the template, then exactly the fields in order |
| CertificateCanvas.Context.constructor | src/components/CertificateCanvas.jsx:18 | a fresh context has drawn nothing |
| CertificateCanvas.Context.PaintField | src/components/CertificateCanvas.jsx:35-46 | painting a field sets its font and baseline and draws its text |
| CertificateCanvas.Context.PaintFields | src/components/CertificateCanvas.jsx:34-47 | the loop draws every field's text, in order |
| CertificateCanvas.Context.Paint | src/components/CertificateCanvas.jsx:22-47 | one run of the effect draws exactly the frame: clear, then template and fields once loaded |
| CertificateClaim.Matching | src/pages/CertificateClaim.jsx:47-71 | the query keeps exactly the entries whose field equals the e-mail |
| CertificateClaim.MatchingAppend | src/pages/CertificateClaim.jsx:47-71 | querying a concatenated listing gives the matches of each part in turn, so matches keep listing order and multiplicity |
| CertificateClaim.MatchingFirst | src/pages/CertificateClaim.jsx:51-74 | `docs[0]` of a non-empty result is the first entry of the listing whose field equals the e-mail |
| CertificateClaim.RsvpCorrectionReadsBack | src/pages/CertificateClaim.jsx:113-140 | writing an RSVP correction and looking the document up again gives exactly the record the page keeps locally |
| CertificateClaim.RsvpReadBack | src/pages/CertificateClaim.jsx:113-140 | mapping an RSVP document with `name`, `email` and `team` merged in gives the old record with those three replaced |
| CertificateClaim.RsvpValue | src/pages/CertificateClaim.jsx:52-60 | each field of the re-mapped RSVP record is the written value or the old record's value |
| CertificateClaim.RsvpKeys | src/pages/CertificateClaim.jsx:52-60 | the RSVP record holds the six default keys and the document's own keys |
| CertificateClaim.UnstopCorrectionReadsBack | src/pages/CertificateClaim.jsx:113-140 | writing a registration-list correction and looking it up again gives the corrected name and email, the corrected team or "Individual", and the same id and origin, when the document has no own `name`, `email`, `team` |
| CertificateClaim.UnstopIdOrigin | src/pages/CertificateClaim.jsx:76-88 | the registration-list record's id and origin are the document's own fields when present, else its id and "unstop" |
| CertificateClaim.SkipSpace | src/pages/CertificateClaim.jsx:162 | skipping a run of white space leaves a non-space start, and the run consists only of white space |
| CertificateClaim.UnderscoredNoSpace | src/pages/CertificateClaim.jsx:162 | no white space survives the replacement, and the name never grows |
| CertificateClaim.UnderscoredIdentity | src/pages/CertificateClaim.jsx:162 | a name without white space is kept as it is |
| CertificateClaim.JoinedByOne | src/pages/CertificateClaim.jsx:162 | two spaceless words joined by any run of white space become the words joined by one underscore |
| CertificateClaim.SpaceRun | src/pages/CertificateClaim.jsx:162 | a run of white space before a non-space becomes a single underscore |
| CertificateClaim.UnderscoredPrefix | src/pages/CertificateClaim.jsx:162 | a spaceless prefix is copied unchanged |
| CertificateClaim.SkipSpaceGap | src/pages/CertificateClaim.jsx:162 | skipping white space over a run of it lands on what follows |
| CertificateClaim.LookupPrecedence | src/pages/CertificateClaim.jsx:47-95 | an RSVP match always wins; the registration list is used only without one; "not found" exactly when neither collection has the e-mail |
| CertificateClaim.RsvpMapping | src/pages/CertificateClaim.jsx:52-60 | the RSVP document's own fields win over the defaults; a missing team is "Individual", a missing role "Participant" |
| CertificateClaim.UnstopMapping | src/pages/CertificateClaim.jsx:76-88 | the registration-list record reads its own column names, with the same fallbacks, and is marked as coming from that list |
| CertificateClaim.ClaimPage.constructor | src/pages/CertificateClaim.jsx:9-12 | the page starts at step 1 with no user |
| CertificateClaim.ClaimPage.HandleLogin | src/pages/CertificateClaim.jsx:40-106 | a match moves to step 2 with the mapped user and the correction fields; no match sets the not-found message and keeps the step |
| CertificateClaim.ClaimPage.HandleUpdateDetails | src/pages/CertificateClaim.jsx:108-154 | without a name nothing happens; a successful write merges the correction into the document the record's id names (a separator around its one segment dropped) in its own collection only, then updates the user record and e-mail; a failed write changes nothing |
| CertificateClaim.ClaimPage.Generate | src/pages/CertificateClaim.jsx:370 | the review screen moves to step 3 with the same user |
| CertificateClaim.ClaimPage.StartOver | src/pages/CertificateClaim.jsx:417 | start over returns to step 1 with no user |
| DraggableField.Clamp | src/components/DraggableField.jsx:37-38 | a clamped coordinate lies between 0 and the bound |
| DraggableField.ClampInside | src/components/DraggableField.jsx:37-38 | a coordinate already inside is kept |
| DraggableField.Initial | src/components/DraggableField.jsx:11-13 | a mounted label is idle at its field's position |
| DraggableField.Resync | src/components/DraggableField.jsx:15-17 | the shown position follows the stored one; the drag state is kept |
| DraggableField.Down | src/components/DraggableField.jsx:19-28 | mouse down starts a drag at the same position and remembers the cursor's offset |
| DraggableField.Up | src/components/DraggableField.jsx:43-48 | release (as intended) ends a drag and reports the shown position; without a drag nothing happens |
| DraggableField.MoveStaysInside | src/components/DraggableField.jsx:30-41 | during a drag every move stays inside the container |
| DraggableField.MoveIgnoredWhenIdle | src/components/DraggableField.jsx:31 | with no drag on a move changes nothing |
| DraggableField.ReturnToStart | src/components/DraggableField.jsx:25-38 | moving back to the press point restores the position the field had |
| DraggableField.UpReportsOnce | src/components/DraggableField.jsx:43-48 | a release reports once, and a second one reports nothing |
| DraggableField.StaleReportExample | src/components/DraggableField.jsx:43-63 | a drag from (400,300) to (500,300) shows (500,300), but the installed listener reports (400,300) |
| DraggableField.UpAsWrittenReportsStart | src/components/DraggableField.jsx:43-63 | the listener as written reports the position at mouse down whatever the moves did; the intended release reports the shown position |
| DraggableField.MovesKeepListener | src/components/DraggableField.jsx:51-63 | moves neither replace the installed listener nor end the drag |
| DraggableField.DragHandle.constructor | src/components/DraggableField.jsx:3-13 | the label starts idle at the field's position |
| DraggableField.DragHandle.FieldMoved | src/components/DraggableField.jsx:15-17 | the shown position becomes the stored one, and the drag state is kept |
| DraggableField.DragHandle.MouseDown | src/components/DraggableField.jsx:19-28 | starts a drag, remembers the offset, and selects the field |
| DraggableField.DragHandle.MouseMove | src/components/DraggableField.jsx:30-41 | moves the label as the pure move step does |
| DraggableField.DragHandle.MouseUp | src/components/DraggableField.jsx:43-48 | ends the drag and reports the shown position, as the corrected release step does |

## Left out

- Store calls are modelled over in-memory collections. A query listing is a
  parameter (`seq<Entry>`) in the order the store returns it. Server
  timestamps and `Date` values are abstract clock readings (`Stamp`); the ISO
  string of a member check-in is a parameter.
- Store reads and writes never fail in the model, apart from `updateDoc` on
  a missing document and the two saves whose outcome is the `writeOk`
  parameter (`EventEditor.EditorPage.Save`,
  `CertificateAdmin.Designer.SaveConfig`). A failed read or write in the
  source instead leaves the event editor on "Loading..." for good (the load
  at EventEditor.jsx:26-35 catches nothing, while `EditorPage.Load` always
  ends loading), shows "Error processing check-in." after a scan
  (Scanner.jsx:130-132), and raises an alert in the scanner's selection list
  (Scanner.jsx:148-149) and in the dashboard toggle
  (CheckInDashboard.jsx:144-146).
- Concurrency is left out: snapshot listeners firing during a handler, and
  the read-then-write race of the member toggle (two operators toggling
  members of one document at once).
- The camera and QR decoding, QR image generation, PDF and image export, and
  canvas pixels are left out. The template image's loading is the `loaded`
  parameter of `CertificateCanvas.Context.Paint`. A missing canvas or context
  is not modelled.
- Image compression in the upload handler is not part of this model. The
  compressed encoding is given to `CertificateAdmin.Designer.UploadTemplate`.
- Floating point is left out. Drag coordinates and container sizes are
  integers.
- `localeCompare` is modelled as lexicographic order of code points
  (`Ordering.TextLe`). `toLowerCase` lowercases ASCII letters only.
- A `null` entry in a `members` array makes the source's `member.name` throw.
  The model reads it as an unnamed member, so it gives no entity.
- Names and teams that are not strings make the source throw where it
  compares or lowercases them (`localeCompare` at CheckInDashboard.jsx:84 and
  PublicAttendance.jsx:57 and 64, `toLowerCase` at PublicAttendance.jsx:78).
  The model instead reads them as template-literal text (`Json.ToText`), and
  arrays as the object placeholder rather than their joined elements.
- `CheckInDashboard.MemberUpdate`: a truthy `members` value that is neither an
  array nor a string makes the spread throw. The model writes nothing then,
  as the source's catch does. It does not model the alert.
- `EventEditor.EditorPage.UpdateItem` requires an index inside the list. The
  source would extend a sparse array for an index past the end, which the
  page never passes.
- The edit helpers of the event editor read the record as it was rendered. In
  the model each call sees the previous call's result, so a stale closure
  between two edits before a re-render is not modelled.
- `EventEditor.EditorPage.Save` takes the write's outcome as a parameter and
  does not model the `saving` flag or the alerts.
- `Store.Collection.SetDocMerge` merges top-level fields only. The store's
  deep merge of nested objects is not modelled. The designer writes only
  top-level fields. The event editor also writes the nested `dates` object;
  there the two merges agree, because the record was loaded wholesale from
  the same document and so holds every nested key the document has, unless
  the document changed in between.
- Spreading a string or an array into an object (`{ ...value }`) is modelled
  as spreading no properties (`Json.Fields`).
- Errors of the designer's configuration listener are only logged by the
  source and are not modelled.
- `CertificateClaim.ClaimPage.HandleLogin` does not model query failures:
  the offline and generic error messages are left out.
- `CertificateClaim.ClaimPage.HandleUpdateDetails` treats a record whose
  `collection` field a stored document overrode with an unknown name as a
  failed write. It does not model the source's write to that unknown
  collection.
- `CertificateAdmin.StoredFields` reads stored field entries that are not
  objects as empty objects. A truthy `fields` value that is not an array is
  kept by the source as it is, and the designer's render then throws at
  `fields.map`; the model reads it as no fields instead of a crashed page.
- `Scanner.ScanOutcome` reads codes the server refuses rather than `doc`
  (such as "." or "__x__") as missing documents.
- `PublicAttendance.AddToGroups` groups every team name alike. In the source a
  team named after an inherited object property ("constructor", "toString",
  "__proto__" and the like) finds a truthy inherited value in `groups`, so
  `.members.push` throws and the list is never shown.
- `CertificateAdmin.Designer.SaveConfig` does not state the intermediate
  "saving" status, only the status once the write has finished. The
  last-saved time shown is left out.
- The canvas ignores invalid style values and keeps the previous style. The
  model records the values the page assigns, as given.
- `Object.values` lists integer-like keys first. The model keeps creation
  order. After the sort by distinct team names the shown order is the same.
- Authentication, routing, the home page, the login page and the store
  configuration (App.jsx, Login.jsx, Home.jsx, firebase.js) are not part of
  this model. Nor is any JSX rendering.

## Findings

| source | as written | input that shows it | evidently intended | confidence | as-written member | corrected member |
|---|---|---|---|---|---|---|
| src/components/DraggableField.jsx:43-63 | the window `mouseup` listener is installed once when the drag starts, so its `handleMouseUp` closure holds the position of that render and reports it to `onUpdate` | a field at (400,300) in an 800 by 600 container, mouse down at (400,300), move to (500,300), release: the label shows (500,300) but (400,300) is reported | report the position the label is shown at on release, (500,300) | not executed | DraggableField.StaleReportExample | DraggableField.DragHandle.MouseUp |
