# Action Atlas meeting core, modelled in Dafny

Action Atlas records meetings and prepares for them. A user can do three things:

- Upload a recording. The backend transcribes it, summarises it into structured JSON, and stores it in the `audio_meetings` MongoDB collection. The upload either creates a new meeting or completes one that was prepared earlier.
- Upload a WhatsApp voice note, which is always stored as a new `whatsapp` meeting.
- Prepare a meeting. The backend researches each participant, generates a brief, and stores a `prepared` meeting plus one `participant_research` record per participant.

The history endpoint lists the user's meetings, newest first. The export endpoint draws a meeting report as a PDF. On the front end, a route table and a navigation guard decide which pages need a login.

This project models that core:

- **Records** (`Bson`): a document is a map from field names to JSON-like values, which include ObjectIds and dates.
- **Collections** (`Query`): a collection is a sequence of documents in natural order. `Query` gives the driver's equality and `$in` filters on whole field values, `find`, `findOne`, `updateOne` with `$set`, and the descending date sort.
- **Database** (`Database.Db`): a class whose fields are the collections. Handlers that write are methods proved against a specification function of the old collections. Read-only handlers are functions.
- **Outside inputs**: the Gemini calls, `JSON.parse`, the ObjectIds the driver generates and the clock are all parameters. `GeminiService.Services` holds the calls, and each call answers with text or with the error it threw.
- **Report** (`ExportController`): the PDF is modelled as the sequence of text blocks drawn, in order.

| file | models |
|---|---|
| `wrappers.dfy` | `Option` and `Result` |
| `bson.dfy` | values, ObjectIds and their hexadecimal form, `ObjectId.isValid`, the dual-representation id lists |
| `js.dfy` | truthiness, property reads, template-literal conversion, `trim`, `indexOf`, `lastIndexOf`, `substring` |
| `query.dfy` | MongoDB `find`, `findOne`, `updateOne`/`$set`, `sort({k: -1})` on a collection |
| `database.dfy` | the database with its three collections |
| `audio_meeting.dfy` | `backend/models/AudioMeeting.js` |
| `participant_research.dfy` | `backend/models/ParticipantResearch.js` |
| `gemini_service.dfy` | the reply clean-up, research fallback and brief assembly of `backend/services/geminiService.js` |
| `http.dfy` | request, response, and the `req.user`/`req.body` reads the controllers share |
| `meeting_controller.dfy` | `backend/controllers/meetingController.js` |
| `research_controller.dfy` | `backend/controllers/researchController.js` |
| `export_controller.dfy` | `backend/controllers/exportController.js` |
| `router.dfy` | `frontend/src/router.js` |

## Model

| member | source | states |
|---|---|---|
| Bson.FromHex | backend/models/AudioMeeting.js:13 | `new ObjectId(s)` of a valid string is the id whose digits are those of `s` in lower case |
| Bson.HexRoundTrip | backend/models/ParticipantResearch.js:20 | an ObjectId's `toString()` is valid and parses back to the same id |
| Bson.IdCandidates | backend/models/AudioMeeting.js:35-43 | `possibleIds` starts with the given value and has a second entry exactly when the value is a valid id |
| Bson.CandidatesDenoteOneId | backend/models/ParticipantResearch.js:14-21 | for a valid id, the two candidates are distinct, denote the same ObjectId, and for an ObjectId the second is its string form |
| Js.NatToDecimal | backend/controllers/researchController.js:55 | the decimal rendering used for spread index keys is non-empty and made of digits |
| Js.LeadingSpaces | backend/services/geminiService.js:73 | the leading run fits in the string, is all ECMAScript white space, and stops at the end or at a non-space character |
| Js.TrailingSpaces | backend/services/geminiService.js:73 | the trailing run fits in the string, is all ECMAScript white space, and starts at the beginning or after a non-space character |
| Js.Trim | backend/services/geminiService.js:73 | `trim()` leaves no white space at either end |
| Js.TrimIsSlice | backend/services/geminiService.js:151 | `trim()` returns a slice of its input with only white space cut off either side |
| Js.TrimOfTrimmed | backend/services/geminiService.js:151 | a string without white space at its ends is its own trim |
| Js.IndexOf | backend/services/geminiService.js:199 | `indexOf` is -1 exactly when the character is absent, else a position holding it with none before |
| Js.LastIndexOf | backend/services/geminiService.js:200 | `lastIndexOf` is -1 exactly when the character is absent, else a position holding it with none after |
| Js.SubstringSwap | backend/services/geminiService.js:203 | `substring` gives the same text whichever end comes first |
| Js.SubstringSpan | backend/services/geminiService.js:203 | `substring` keeps the characters between the two clamped ends: its length is their distance, in-range ordered ends give exactly that slice, and ends beyond both sides give the whole string |
| Query.Find | backend/models/ParticipantResearch.js:23 | `find({k: {$in: vs}})` returns only matching documents and never more than stored |
| Query.FindCounts | backend/models/AudioMeeting.js:45 | `find` returns each matching document as often as the collection holds it, and no other |
| Query.FindAppend | backend/models/ParticipantResearch.js:23 | inserting a document extends every `find` by that document exactly when it matches |
| Query.FindAppendAll | backend/controllers/researchController.js:44-52 | inserting documents that all match extends the `find` by exactly those documents, in order |
| Query.FindOne | backend/models/AudioMeeting.js:27 | `findOne` is null exactly when nothing matches, else the first matching document |
| Query.KeyedAppend | backend/models/AudioMeeting.js:20 | inserting under a fresh ObjectId keeps every `_id` unique and adds exactly that id |
| Query.SetFields | backend/models/AudioMeeting.js:62-65 | `$set` gives the listed fields their new values and keeps every other field |
| Query.UpdateOne | backend/models/AudioMeeting.js:62-65 | `updateOne` keeps the number of documents |
| Query.UpdateOneNoMatch | backend/models/AudioMeeting.js:62-65 | `updateOne` with no matching document changes nothing |
| Query.UpdateOneReread | backend/models/AudioMeeting.js:62-66 | re-reading by the same filter after `updateOne` finds the first match with the new fields merged in |
| Query.UpdateOnePointwise | backend/models/ParticipantResearch.js:34-42 | after `updateOne` each document is either unchanged or the first match with the fields merged in |
| Query.UpdateByIdAt | backend/models/ParticipantResearch.js:34-42 | in a keyed collection, updating by `_id` changes the record with that id and no other |
| Query.UpdateOneKeyed | backend/models/AudioMeeting.js:62-65 | a `$set` that does not touch `_id` keeps ids unique and unchanged |
| Query.InsertDesc | backend/models/AudioMeeting.js:45 | inserting into a newest-first list keeps it newest first and adds one element |
| Query.InsertDescPermutes | backend/models/AudioMeeting.js:45 | insertion adds exactly the inserted document |
| Query.SortDesc | backend/models/AudioMeeting.js:45 | `sort({createdAt: -1})` yields a newest-first list of the same length |
| Query.SortDescPermutes | backend/models/AudioMeeting.js:45 | sorting is a permutation: nothing is added or lost |
| AudioMeeting.CreateStamps | backend/models/AudioMeeting.js:4-22 | `create` stores fresh `createdAt`/`updatedAt`, keeps a truthy status and otherwise uses 'uploaded', converts a valid string userId to an ObjectId, and stores all other fields as given |
| AudioMeeting.RecordFields | backend/models/AudioMeeting.js:4-22 | the same facts, read field by field |
| AudioMeeting.Create | backend/models/AudioMeeting.js:4-22 | `create` appends exactly one record under the fresh id, returns it, and keeps ids unique |
| AudioMeeting.FindById | backend/models/AudioMeeting.js:24-28 | `findById` is null for an invalid id; when it finds a record, that record is stored with that `_id`; when it finds none, no record has that `_id` |
| AudioMeeting.FindByUserIdSpec | backend/models/AudioMeeting.js:30-46 | `findByUserId` returns newest first exactly the records owned by either form of the id, each as often as stored |
| AudioMeeting.FindByUserIdMembers | backend/models/AudioMeeting.js:30-46 | a record is in the result exactly when it is stored under either form of the user id |
| AudioMeeting.FindByUserIdBothForms | backend/models/AudioMeeting.js:33-43 | a record stored under the ObjectId and one stored under its string form are both found, whichever form is passed |
| AudioMeeting.Update | backend/models/AudioMeeting.js:48-67 | `update` applies `$set` of the fields, the fresh `updatedAt` and the converted userId to the record with that id, and returns the re-read record |
| AudioMeeting.UpdateMerges | backend/models/AudioMeeting.js:48-67 | on an invalid or unknown id nothing changes and null comes back; otherwise the record gets exactly the given fields and `updatedAt`, with a convertible string `userId` stored as its ObjectId and any other `userId` kept as given, and keeps every other field |
| AudioMeeting.UpdateTranscript | backend/models/AudioMeeting.js:69-71 | `updateTranscript` is `update` with the transcript alone |
| AudioMeeting.UpdateSummary | backend/models/AudioMeeting.js:73-75 | `updateSummary` is `update` with the summary and status 'completed' |
| ParticipantResearch.Create | backend/models/ParticipantResearch.js:4-9 | `create` stamps `researchedAt`, appends exactly one record under the fresh id and returns it |
| ParticipantResearch.FindByMeetingIdBothForms | backend/models/ParticipantResearch.js:11-24 | research linked by a meeting's ObjectId or by its string form is found as often as stored, whichever form is passed |
| ParticipantResearch.FindByMeetingIdOnlyLinked | backend/models/ParticipantResearch.js:11-24 | only stored research linked to the meeting, under its ObjectId or its string form, is found |
| ParticipantResearch.FindByLegacyMeetingId | backend/models/ParticipantResearch.js:14-23 | an id string that is not an ObjectId matches only records stored under that exact string |
| ParticipantResearch.FindByEmail | backend/models/ParticipantResearch.js:26-29 | `findByEmail` returns a stored record with that email, or null when no record has it |
| ParticipantResearch.UpdateResearch | backend/models/ParticipantResearch.js:31-44 | `updateResearch` returns null for an invalid id; otherwise it sets `researchData` and `researchedAt` on that record and re-reads it |
| ParticipantResearch.UpdateResearchTouchesOne | backend/models/ParticipantResearch.js:31-44 | the record with that id gets exactly the two new fields and keeps the rest; every other record is unchanged |
| GeminiService.StripFences | backend/services/geminiService.js:73 | the cleaned summary has no white space at either end |
| GeminiService.OpeningFenceDropped | backend/services/geminiService.js:73 | the opening fence is removed, together with one newline after it |
| GeminiService.ClosingFenceDropped | backend/services/geminiService.js:73 | removing the closing fence (and one newline before it) and then trimming gives the trimmed text before the fence |
| GeminiService.FencedReply | backend/services/geminiService.js:73 | a reply wrapped in a json fence comes back as its trimmed body |
| GeminiService.UnfencedReply | backend/services/geminiService.js:151 | a reply without fences at its very ends comes back merely trimmed |
| GeminiService.LeadingSpaceKeepsFence | backend/services/geminiService.js:151 | white space before the opening fence keeps the fence, because trimming happens after the fence is removed |
| GeminiService.ExtractBracesSpan | backend/services/geminiService.js:198-204 | when a '{' comes before a '}', the brief text becomes the inclusive span from the first '{' to the last '}' |
| GeminiService.ExtractBracesMissing | backend/services/geminiService.js:202 | without a '{' or without a '}', the text is kept as it is |
| GeminiService.ExtractBracesReversed | backend/services/geminiService.js:203 | when every '}' precedes the first '{', the swapped `substring` gives the brace-free text between them |
| GeminiService.ExtractBracesIdempotent | backend/services/geminiService.js:198-204 | extracting again from an extracted span changes nothing |
| GeminiService.ResearchEntryFields | backend/services/geminiService.js:219-224 | an entry copies the participant's name, email and company and holds the research text as `data` |
| GeminiService.ResearchEntries | backend/services/geminiService.js:219-224 | the entries are the index-aligned zip of participants and research texts |
| GeminiService.GenerateMeetingBrief | backend/services/geminiService.js:165-231 | a successful brief is an object with `briefData` and one `researchResults` entry per participant |
| GeminiService.BriefZipsParticipants | backend/services/geminiService.js:165-231 | a brief succeeds exactly when no participant is null, the generator answers and the extracted text parses; then `briefData` is the parsed text and entry i is participant i with its research |
| GeminiService.BriefParseFailure | backend/services/geminiService.js:209-215 | text that does not parse fails with "Failed to parse AI response" |
| GeminiService.BriefToleratesFailedResearch | backend/services/geminiService.js:117-120 | a failed search never fails the brief: that participant's `data` is "Information not found." |
| Http.Language | backend/controllers/meetingController.js:37 | the language is 'English' when the body's is falsy, else the body's string |
| Http.Put | backend/controllers/meetingController.js:97 | an undefined property disappears from the serialised object; a defined one is set |
| Http.RecordsInjective | backend/controllers/meetingController.js:100 | the records are sent one object each: different record lists never give the same array |
| Http.RecordsMembers | backend/controllers/meetingController.js:100 | the sent array holds exactly the records, one object each, and nothing else |
| MeetingController.Process | backend/controllers/meetingController.js:60-62 | both model calls answering gives the transcript and the cleaned summary; otherwise the first failure's message is the error |
| MeetingController.MeetingDataFields | backend/controllers/meetingController.js:65-77 | `meetingData` sets the transcript, summary, status 'completed', type and file name, and never `_id` or `createdAt` |
| MeetingController.CreatedRecordFields | backend/controllers/meetingController.js:86-88 | the created record holds the new id, stamps from now, 'completed', the kind, the file name, the transcript, the summary and the converted user id |
| MeetingController.UploadBody | backend/controllers/meetingController.js:95-102 | the answer names the record's id and file name, the transcript, the summary, the research linked to the record, and 'success' |
| MeetingController.HandleUpload | backend/controllers/meetingController.js:31-108 | the handler's new `audio_meetings` and response are those of the `Upload` specification, and ids stay unique |
| MeetingController.UploadStatus | backend/controllers/meetingController.js:31-108 | 400 exactly without a file; 200 exactly when both calls answer and any named meeting exists; otherwise 500; only a 200 changes the collection |
| MeetingController.UploadCreates | backend/controllers/meetingController.js:86-88 | without a meeting id exactly one 'completed' 'standard' record is appended, under the new id, with the file, transcript, summary, stamps and owner |
| MeetingController.UploadAnswersCreated | backend/controllers/meetingController.js:93-102 | such an upload answers 200 with the new id, the file name, the summary and the research under the new id |
| MeetingController.UploadCompletesPrepared | backend/controllers/meetingController.js:65-85 | with an existing meeting's id no record is added; that meeting gets the transcript, summary, 'completed', 'standard' and `updatedAt`, its `userId` (converted) and `userEmail` are overwritten by the uploader's, and it keeps every field the upload does not set |
| MeetingController.CompletedRecordFields | backend/controllers/meetingController.js:65-85 | the same merge, including the uploader's converted `userId` and `userEmail`, for any upload kind |
| MeetingController.UploadAnswersPrepared | backend/controllers/meetingController.js:93-102 | completing a meeting answers with that meeting's id, the summary and the research stored for it |
| MeetingController.HandleWhatsAppUpload | backend/controllers/meetingController.js:110-157 | the handler's new `audio_meetings` and response are those of the `WhatsApp` specification, and ids stay unique |
| MeetingController.WhatsAppStatus | backend/controllers/meetingController.js:110-157 | 400 exactly without a file; 200 exactly when both calls answer; otherwise 500; only a 200 changes the collection |
| MeetingController.WhatsAppCreates | backend/controllers/meetingController.js:127-142 | a processed note appends exactly one 'completed' 'whatsapp' record under the new id, stamped now, holding the transcript and the cleaned summary |
| MeetingController.WhatsAppAnswers | backend/controllers/meetingController.js:144-151 | a processed note is answered with success, the new record's id, type 'whatsapp' and the cleaned summary |
| MeetingController.WhatsAppIgnoresMeetingId | backend/controllers/meetingController.js:110-157 | the body's meeting id has no effect on a WhatsApp upload |
| MeetingController.HistoryEntry | backend/controllers/meetingController.js:166-170 | an entry is the record with `meetingId` equal to `_id` and `timestamp` equal to `createdAt`, every other field kept |
| MeetingController.HistoryNeedsUser | backend/controllers/meetingController.js:161-162 | the history is refused with 401 exactly when the user id is falsy, else it is a 200 list |
| MeetingController.HistoryOnlyOwnMeetings | backend/controllers/meetingController.js:165-171 | every entry comes from a meeting stored under the user's id in either form |
| MeetingController.HistoryListsAllOwnMeetings | backend/controllers/meetingController.js:165-171 | every meeting stored under the user's id in either form has its entry |
| MeetingController.HistoryNewestFirst | backend/controllers/meetingController.js:165-171 | entries are ordered newest `timestamp` first |
| MeetingController.GetMeetingFindsRecord | backend/controllers/meetingController.js:9-29 | 404 exactly when the id is not an ObjectId string of a stored record; otherwise the answer is that record with every research record linked to it in either id form, and with nothing else: each participant entry is stored research linked to that meeting |
| ResearchController.ParticipantList | backend/controllers/researchController.js:12 | the participant list is non-empty exactly when the body holds a non-empty array, and is then that array |
| ResearchController.PreparedBody | backend/controllers/researchController.js:54-58 | the answer has the brief's keys, `researchResults` and `meetingId`, later keys winning |
| ResearchController.StoreResearch | backend/controllers/researchController.js:44-52 | the loop appends exactly the research records, one per entry and in order, and keeps ids unique |
| ResearchController.HandlePreparation | backend/controllers/researchController.js:7-64 | the handler's new collections and response are those of the `Prepare` specification, and ids stay unique |
| ResearchController.PrepareStatus | backend/controllers/researchController.js:7-64 | 400 exactly for a falsy topic (checked first) or no participant array; 500 exactly when the brief fails; otherwise 200; only a 200 writes |
| ResearchController.PrepareStoresMeeting | backend/controllers/researchController.js:28-40 | success appends one meeting under the new id: 'prepared', 'preparation', the topic, the brief, the participants, created now, owned by the caller |
| ResearchController.PreparedRecordFields | backend/controllers/researchController.js:28-40 | the prepared meeting's record, field by field |
| ResearchController.PrepareStoresResearch | backend/controllers/researchController.js:44-52 | success appends one research record per participant, in order, linked to the new meeting, copying the participant and holding its research text |
| ResearchController.StoredEntryFields | backend/controllers/researchController.js:45-51 | the research record stored for one entry, field by field |
| ResearchController.PreparedResearchIsFound | backend/controllers/researchController.js:44-52 | after preparation, research lookup by the new id finds the earlier matches followed by every record just stored |
| ResearchController.BriefKeysKept | backend/controllers/researchController.js:54-58 | a key of an object brief other than `researchResults` and `meetingId` reaches the answer with its value |
| ResearchController.PrepareAnswer | backend/controllers/researchController.js:54-58 | the answer carries the new meeting id, one research entry per participant, and every brief key except the two it sets |
| ResearchController.FindAppendedById | backend/models/AudioMeeting.js:24-28 | a meeting appended under a fresh id is the one `findById` finds for it |
| ResearchController.PreparedMeetingCompletedByUpload | backend/controllers/researchController.js:40-52 | after preparation, an upload naming the meeting completes it without adding a meeting and answers with the research the preparation stored |
| ExportController.CloseAt | backend/controllers/exportController.js:121 | a match found is a "**" with no line break and no earlier "**" before it |
| ExportController.CloseAtComplete | backend/controllers/exportController.js:121 | a "**" with no line break before it is always found, at it or earlier, so -1 means the first line holds none |
| ExportController.StripBoldNoMarkers | backend/controllers/exportController.js:121 | text without "**" is unchanged |
| ExportController.StripBoldOnlyAsterisks | backend/controllers/exportController.js:121 | stripping bold removes asterisks only: the other characters survive in order and nothing is added |
| ExportController.StripBoldSpan | backend/controllers/exportController.js:121 | a "**"-delimited span on one line loses both delimiters and keeps its text |
| ExportController.StripBoldInnerStar | backend/controllers/exportController.js:121 | a single asterisk inside a span does not stop the match: "**a*b**" becomes "a*b" |
| ExportController.StripBoldCons | backend/controllers/exportController.js:121 | a character other than '*' is kept and never opens a pair |
| ExportController.StripBoldNoStarPrefix | backend/controllers/exportController.js:121 | text without asterisks passes through |
| ExportController.LoneStar | backend/controllers/exportController.js:121 | a single '*' is kept |
| ExportController.StripBoldNotAcrossLines | backend/controllers/exportController.js:121 | delimiters on different lines are not paired and stay |
| ExportController.ThenPrefix | backend/controllers/exportController.js:72-106 | what the earlier groups drew stays in front, and the walk threw exactly when some part threw |
| ExportController.ThenAssoc | backend/controllers/exportController.js:72-106 | the summary walk draws the same report however its steps are grouped |
| ExportController.BulletsAppend | backend/controllers/exportController.js:77 | bullets are drawn item by item: two lists give their lines one after the other |
| ExportController.ConvertedLengthThrows | backend/controllers/exportController.js:75-78 | an object whose `length` is `true` or a one-element array of a positive number passes `length > 0`, so the heading is drawn and `forEach` throws |
| ExportController.FirstNull | backend/controllers/exportController.js:95-96 | the first null action item, or the list's length when there is none |
| ExportController.DrawGroup | backend/controllers/exportController.js:75-91 | drawing a list group gives the `Group` specification |
| ExportController.DrawItem | backend/controllers/exportController.js:95-99 | drawing one action item gives its task line, then the owner and deadline line when either is truthy (`ItemBlocks`) |
| ExportController.DrawActions | backend/controllers/exportController.js:93-103 | drawing the action items gives the `Actions` specification |
| ExportController.DrawParticipant | backend/controllers/exportController.js:118-123 | drawing one participant with research text gives its name line, company line when set, bold-free research and separator (`ParticipantBlocks`) |
| ExportController.DrawParticipants | backend/controllers/exportController.js:117-125 | all participants are drawn exactly when each has research text, and then as `ParticipantsBlocks` |
| ExportController.DrawSummary | backend/controllers/exportController.js:72-103 | drawing the summary groups gives the `SummaryWalk` specification |
| ExportController.DrawFirstPage | backend/controllers/exportController.js:61-106 | the header and summary section match their specifications |
| ExportController.ExportPdf | backend/controllers/exportController.js:8-140 | the handler's outcome is that of the `Export` specification, including the 500 when `setHeader` refuses the file name |
| ExportController.FileNameSafe | backend/controllers/exportController.js:52-55 | the `Content-disposition` value is accepted exactly when every character of the meeting id is a tab, printable ASCII or in 0x80-0xFF |
| ExportController.TaskLines | backend/controllers/exportController.js:96 | one task line per action item |
| ExportController.OneItemDrawn | backend/controllers/exportController.js:96-100 | one action item draws one task line and neither a section nor a separator |
| ExportController.ActionItemsDrawn | backend/controllers/exportController.js:95-101 | non-null action items draw their task lines in order |
| ExportController.ActionItemsPlain | backend/controllers/exportController.js:95-101 | action items draw no section heading and no separator |
| ExportController.SummaryWalkPlain | backend/controllers/exportController.js:72-103 | the summary groups draw no section heading and no separator |
| ExportController.ParticipantPlain | backend/controllers/exportController.js:117-125 | one participant draws exactly one separator and no section heading |
| ExportController.ParticipantsDrawn | backend/controllers/exportController.js:117-125 | each participant draws exactly one separator and no section heading |
| ExportController.SummarySectionPlain | backend/controllers/exportController.js:68-106 | the summary section has its own heading first and no other heading or separator |
| ExportController.ExportNotFound | backend/controllers/exportController.js:22-32 | 404 exactly when neither the ObjectId lookup nor the legacy `meetingId` lookup finds a meeting |
| ExportController.ExportFailsOnBadResearch | backend/controllers/exportController.js:52-138 | a found meeting fails with 500 exactly when the meeting id holds a character the header refuses or a participant lacks research text, and otherwise gets its report |
| ExportController.ReportBlocksEnds | backend/controllers/exportController.js:61-132 | the report opens with the title, file, date and summary heading and ends with the transcript page |
| ExportController.ParticipantSectionRules | backend/controllers/exportController.js:111-126 | the participant pages hold one separator per participant |
| ExportController.ReportBlocksRules | backend/controllers/exportController.js:111-126 | the report has one separator per participant and no other |
| ExportController.ReportBlocksParticipantPage | backend/controllers/exportController.js:111 | the participant page is there exactly when there are participants |
| ExportController.ReportLayout | backend/controllers/exportController.js:53-132 | a report is named after the requested id, which the header accepted, opens with the header, closes with the transcript (or its placeholder), has one separator per participant, and has a participant page exactly when there are participants |
| ExportController.UnparsableSummary | backend/controllers/exportController.js:104-106 | a summary string that does not parse is drawn raw under the summary heading |
| ExportController.DecisionsNeverDrawn | backend/controllers/exportController.js:75-103 | the `decisions` list has no effect on the report |
| ExportController.ThrowKeepsEarlierGroups | backend/controllers/exportController.js:81-83 | a string `risks` throws after its heading; the outcomes already drawn stay, followed by the raw summary |
| ExportController.NullActionItemStops | backend/controllers/exportController.js:95-96 | a null action item stops the list after the items before it, and the raw summary follows |
| ExportController.WellFormedSummaryNoFallback | backend/controllers/exportController.js:72-106 | with array lists and no null action item nothing throws and no raw summary is added |
| ExportController.WellFormedSummaryTasks | backend/controllers/exportController.js:93-101 | with a well-formed summary every action item gets its task line, in order, and nothing else does |
| ExportController.ActionsTasks | backend/controllers/exportController.js:93-101 | a null-free action list draws one task line per item without throwing |
| ExportController.MetaLineForms | backend/controllers/exportController.js:98 | the owner and deadline parts each appear exactly when truthy |
| ExportController.ItemMetaLine | backend/controllers/exportController.js:97-98 | an action item gets its owner/deadline line exactly when either is truthy |
| Router.Normalize | frontend/src/router.js:26-29 | the matcher's normal form is the path with ASCII letters lower-cased and one trailing '/' dropped when the path is longer than '/' |
| Router.FindRoute | frontend/src/router.js:12-24 | the route found has the given path, and no route has it when none is found |
| Router.GuardRules | frontend/src/router.js:31-41 | redirect to '/login' exactly for a protected page without a token; to '/' exactly for '/login' with a token; otherwise proceed |
| Router.TablePathsMatchThemselves | frontend/src/router.js:12-24 | every table path is already in normal form and matches its own route |
| Router.FindRouteAt | frontend/src/router.js:12-24 | the first route with the path is the one found |
| Router.ProtectedPages | frontend/src/router.js:12-24 | a table page requires a login exactly when it is marked, and only those pages send a visitor without a token to '/login' |
| Router.PublicPages | frontend/src/router.js:18-23 | registration, the sign-in callback and the test page let anyone through |
| Router.LoginPage | frontend/src/router.js:36-37 | '/login' lets a visitor without a token through and sends one with a token to '/' |
| Router.EmptyTokenIsNoToken | frontend/src/router.js:32 | an empty stored token counts as no token |
| Router.RedirectSettles | frontend/src/router.js:31-41 | following a redirect never redirects again |
| Router.SpellingsProtected | frontend/src/router.js:34-35 | two spellings the matcher treats alike, differing in ASCII case or a trailing slash, are protected alike |
| Router.LoginSpellingSlipsThrough | frontend/src/router.js:36 | '/login/' opens the login route, yet the guard lets a logged-in user through |
| Router.IntendedLoginRedirect | frontend/src/router.js:36-37 | with the login check made on the matched route, every spelling of the login page sends a logged-in user home |
| Router.IntendedGuardElsewhere | frontend/src/router.js:31-41 | away from the login page the intended guard decides as the written one |

## Left out

- HTTP transport, Express routing, the upload middleware, JWT verification and the Passport/auth modules: the authenticated user is an input (`Request.user`). `backend/config/db.js` is not part of this model.
- Gemini calls, file upload to the file manager, prompts and network failures: each call is an uninterpreted function of its arguments that answers with text or with the error it threw.
- `JSON.parse` is a parameter; `JSON.stringify` followed by `JSON.parse` of the brief wrapper is taken as the identity on the values the model carries, except that undefined properties are dropped.
- Database and network failures: the catch blocks that answer 500 because the driver threw (in `getMeeting`, `getHistory` and the upload's preparation-context lookup) are not modelled. Only errors the model can raise itself (a model call's failure, a TypeError) reach the catch.
- Concurrency: each handler is one atomic step, and two requests never interleave.
- The clock: one `now` per request, so `createdAt` and `updatedAt` of one request are equal. `toLocaleString` of the report's date is left abstract (`DateCaption`).
- PDF fonts, sizes, colours, indentation, page geometry and piping. A throw after the headers were sent is modelled as the 500 answer the code attempts.
- `res.json` serialisation: ObjectIds and dates are kept as values rather than turned into hex and ISO strings.
- Js.Show: a date in a template literal renders as the decimal digits of its time value, not as `Date.prototype.toString()` text such as "Sun Oct 18 2026 10:00:00 GMT+0000". Only legacy records hold dates in the fields the report prints.
- The preparation context in `handleUpload` (meetingController.js lines 43-58): it is looked up but `summarizeText` takes two arguments, so it has no effect. Its lookup is left out.
- Console logging.
- Mongo stores `undefined` as null: a missing `req.user` claim and a missing research property are stored as null.
- `ObjectId.isValid` accepts only 24-digit hex strings and ObjectIds here; its acceptance of 12-character strings and of numbers is not modelled.
- Query.SortDesc: every value that is not a date sorts below every date, so BSON's cross-type order among numbers, strings and missing fields is not modelled.
- Numbers are integers only, so floating-point values and their rendering in template literals are not modelled. A `length` property is converted to a number as JavaScript does for booleans, numbers, dates and arrays, but a numeric string (such as `"3"`, or an array holding one) is taken as not positive.
- Spreading a string into the preparation answer makes one key per UTF-16 code unit in JavaScript; the model makes one key per Dafny character.
- ResearchController.HandlePreparation: `researchResults || []` is modelled without its default, because the generator always supplies an array.
- AudioMeeting.Create, ParticipantResearch.Create: they require data without `_id`. The handlers never pass one, and a caller-supplied `_id` is not modelled.
- AudioMeeting.Update, AudioMeeting.UpdateMerges: they require update fields without `_id`. The handlers never pass one, and a `$set` of `_id` (which MongoDB rejects as a change of an immutable field) is not modelled.
- Query.FieldMatches: a filter compares the whole field value. MongoDB also matches an array-valued field that contains the queried value, and that is not modelled. For example, a research record whose user-supplied `email` is an array holding the queried address is found by `findByEmail` in MongoDB but not in the model.
- Router: percent-encoding in paths, `to.meta` inherited from nested routes, and the router's history mode are not modelled. Matching is modelled as ASCII case-insensitive with one optional trailing slash.

## Findings

| source | as written | input that shows it | evidently intended | confidence | as-written member | corrected member |
|---|---|---|---|---|---|---|
| frontend/src/router.js:36 | the guard sends a logged-in user home only when `to.path` is exactly '/login', but the router also matches '/login/' and '/LOGIN' to the login route | path '/login/' with a stored token: the login page is shown | every path that opens the login route sends a logged-in user home | low, not executed | Router.LoginSpellingSlipsThrough | Router.IntendedLoginRedirect |
