/**
 * The meeting endpoints: uploading a recording (a new meeting, or the completion of a
 * prepared one), uploading a WhatsApp voice note, the user's history, and one meeting
 * with its participant research.
 */
module MeetingController {
  import opened Wrappers
  import opened Bson
  import opened Js
  import opened Query
  import opened Database
  import opened Http
  import opened GeminiService
  import AudioMeeting
  import ParticipantResearch

  const NoFile := "No file uploaded."
  const UploadFailure := "Failed to process audio file."
  const WhatsAppFailure := "Failed to process WhatsApp audio."
  const MeetingNotFound := "Meeting not found"
  const Unauthorized := "Unauthorized"
  /** The TypeError `meetingRecord._id` raises when the update found no record. */
  const NullRecord := "Cannot read properties of null (reading '_id')"

  /** What a state-changing handler leaves behind: the meetings collection and the response. */
  datatype Handled = Handled(meetings: seq<Doc>, response: Response)

  /** What the two model calls of an upload produce. */
  datatype Processed = Processed(transcript: string, summary: string)

  /** The reply of the summariser an upload uses, before its fences are stripped. */
  function SummarizerReply(svc: Services, whatsApp: bool, transcript: string, language: string): Reply {
    if whatsApp then svc.summarizeWhatsApp(transcript, language) else svc.summarize(transcript, language)
  }

  /**
   * Transcription, then summarising the transcript in the same language; the first call
   * that throws decides the error the handler catches.
   */
  function Process(svc: Services, f: File, language: string, whatsApp: bool): (r: Result<Processed>)
    ensures var t := svc.transcribe(f.path, f.mimeType, language);
      r.Ok? <==> t.Answer? && SummarizerReply(svc, whatsApp, t.text, language).Answer?
    ensures var t := svc.transcribe(f.path, f.mimeType, language);
      r.Ok? ==> (r.value.transcript == t.text
                 && r.value.summary == StripFences(SummarizerReply(svc, whatsApp, t.text, language).text))
    ensures var t := svc.transcribe(f.path, f.mimeType, language);
      && (t.Failed? ==> r == Err(t.message))
      && (t.Answer? && SummarizerReply(svc, whatsApp, t.text, language).Failed? ==>
            r == Err(SummarizerReply(svc, whatsApp, t.text, language).message))
  {
    match svc.transcribe(f.path, f.mimeType, language)
    case Failed(m) => Err(m)
    case Answer(transcript) =>
      match (if whatsApp then SummarizeWhatsApp(svc, transcript, language) else Summarize(svc, transcript, language))
      case Failed(m) => Err(m)
      case Answer(summary) => Ok(Processed(transcript, summary))
  }

  /** The `meetingData` both upload handlers build; a new record also gets `createdAt`. */
  function MeetingData(f: File, user: Option<Doc>, p: Processed, kind: string, now: nat): Doc {
    map["filename" := Str(f.originalName), "originalName" := Str(f.originalName),
        "mimeType" := Str(f.mimeType), "uploadPath" := Str(f.path),
        "transcript" := Str(p.transcript), "summary" := Str(p.summary), "status" := Str("completed"),
        "userId" := UserField(user, "id"), "userEmail" := UserField(user, "email"),
        "type" := Str(kind), "updatedAt" := Date(now)]
  }

  /** The fields an upload sets, whatever the kind; it never sets `_id` or `createdAt`. */
  lemma {:induction false} MeetingDataFields(f: File, user: Option<Doc>, p: Processed, kind: string, now: nat)
    ensures var d := MeetingData(f, user, p, kind, now);
      && "_id" !in d && "createdAt" !in d
      && Field(d, "transcript") == Some(Str(p.transcript)) && Field(d, "summary") == Some(Str(p.summary))
      && Field(d, "status") == Some(Str("completed")) && Field(d, "type") == Some(Str(kind))
      && Field(d, "filename") == Some(Str(f.originalName))
  {
  }

  /** An upload's data names the uploader: the user's `id` and `email` claims. */
  lemma {:induction false} MeetingDataOwner(f: File, user: Option<Doc>, p: Processed, kind: string, now: nat)
    ensures var d := MeetingData(f, user, p, kind, now);
      && "userId" in d && d["userId"] == UserField(user, "id")
      && "userEmail" in d && d["userEmail"] == UserField(user, "email")
  {
  }

  /** The record `create` makes of an upload's data: the data, stamped now, under the new id. */
  lemma {:induction false} CreatedRecordFields(f: File, user: Option<Doc>, p: Processed, kind: string, now: nat, id: ObjectId)
    ensures var rec := AudioMeeting.Record(MeetingData(f, user, p, kind, now)["createdAt" := Date(now)], id, now);
      && Field(rec, "_id") == Some(Id(id))
      && Field(rec, "createdAt") == Some(Date(now)) && Field(rec, "updatedAt") == Some(Date(now))
      && Field(rec, "status") == Some(Str("completed")) && Field(rec, "type") == Some(Str(kind))
      && Field(rec, "filename") == Some(Str(f.originalName))
      && Field(rec, "transcript") == Some(Str(p.transcript)) && Field(rec, "summary") == Some(Str(p.summary))
      && Field(rec, "userId") == Some(AudioMeeting.StoredUserId(UserField(user, "id")))
  {
    var data := MeetingData(f, user, p, kind, now)["createdAt" := Date(now)];
    MeetingDataFields(f, user, p, kind, now);
    AudioMeeting.RecordFields(data, id, now);
    assert Field(data, "status") == Some(Str("completed"));
    assert Field(data, "type") == Some(Str(kind));
    assert Field(data, "filename") == Some(Str(f.originalName));
    assert Field(data, "transcript") == Some(Str(p.transcript));
    assert Field(data, "summary") == Some(Str(p.summary));
    assert data["userId"] == UserField(user, "id");
  }

  /** The meeting an upload completes: `req.body.meetingId` when it is truthy. */
  function Linked(body: Doc): Option<Value> {
    if Defined(Field(body, "meetingId")) then Some(body["meetingId"]) else None
  }

  /** The body `handleUpload` answers with once the record is stored. */
  function UploadBody(rec: Doc, research: seq<Doc>, p: Processed): (r: Value)
    requires "_id" in rec
    ensures r.Obj? && r.fields.Keys <= {"meetingId", "filename", "transcript", "summary", "participants", "status"}
    ensures Field(r.fields, "meetingId") == Some(rec["_id"])
    ensures Field(r.fields, "filename") == Field(rec, "filename")
    ensures Field(r.fields, "transcript") == Some(Str(p.transcript)) && Field(r.fields, "summary") == Some(Str(p.summary))
    ensures Field(r.fields, "participants") == Some(Arr(Records(ParticipantResearch.FindByMeetingId(research, rec["_id"]))))
    ensures Field(r.fields, "status") == Some(Str("success"))
  {
    var participants := ParticipantResearch.FindByMeetingId(research, rec["_id"]);
    Obj(Put(map["meetingId" := rec["_id"], "transcript" := Str(p.transcript), "summary" := Str(p.summary),
                "participants" := Arr(Records(participants)), "status" := Str("success")],
            "filename", Field(rec, "filename")))
  }

  /**
   * The second half of `handleUpload`: update the linked meeting (a null result makes
   * `meetingRecord._id` throw) or insert a new one, then answer with its research.
   */
  function Store(meetings: seq<Doc>, research: seq<Doc>, linked: Option<Value>, data: Doc, id: ObjectId, now: nat,
                 p: Processed): Handled
  {
    if linked.Some? then
      var after := AudioMeeting.Updated(meetings, linked.value, data, now);
      match AudioMeeting.FindById(after, linked.value)
      case None => Handled(after, Response(500, ErrorDetails(UploadFailure, NullRecord)))
      case Some(rec) => Handled(after, Response(200, UploadBody(rec, research, p)))
    else
      var rec := AudioMeeting.Record(data["createdAt" := Date(now)], id, now);
      Handled(meetings + [rec], Response(200, UploadBody(rec, research, p)))
  }

  /**
   * `handleUpload`: transcribe, summarise, then complete the prepared meeting the body
   * names or create a new one, and answer with the research stored for that meeting.
   * The preparation context the handler looks up is never passed on to the summariser
   * (it takes two arguments), so it plays no part here.
   */
  function Upload(meetings: seq<Doc>, research: seq<Doc>, req: Request, svc: Services, id: ObjectId, now: nat): Handled {
    if req.file.None? then Handled(meetings, Response(400, Str(NoFile)))
    else
      match Process(svc, req.file.value, Language(req.body), false)
      case Err(m) => Handled(meetings, Response(500, ErrorDetails(UploadFailure, m)))
      case Ok(p) =>
        Store(meetings, research, Linked(req.body), MeetingData(req.file.value, req.user, p, "standard", now), id, now, p)
  }

  /** `handleUpload` on the database; `id` is the id the driver gives a new record. */
  method HandleUpload(db: Db, req: Request, svc: Services, id: ObjectId, now: nat) returns (res: Response)
    requires db.Valid()
    requires Id(id) !in IdsOf(db.meetings)
    modifies db`meetings
    ensures db.Valid()
    ensures Handled(db.meetings, res) == Upload(old(db.meetings), db.research, req, svc, id, now)
  {
    if req.file.None? {
      return Response(400, Str(NoFile));
    }
    var f := req.file.value;
    var language := Language(req.body);
    var transcribed := svc.transcribe(f.path, f.mimeType, language);
    if transcribed.Failed? {
      return Response(500, ErrorDetails(UploadFailure, transcribed.message));
    }
    var summarized := Summarize(svc, transcribed.text, language);
    if summarized.Failed? {
      return Response(500, ErrorDetails(UploadFailure, summarized.message));
    }
    var p := Processed(transcribed.text, summarized.text);
    var data := MeetingData(f, req.user, p, "standard", now);
    var rec: Doc;
    if Defined(Field(req.body, "meetingId")) {
      var updated := AudioMeeting.Update(db, req.body["meetingId"], data, now);
      if updated.None? {
        return Response(500, ErrorDetails(UploadFailure, NullRecord));
      }
      rec := updated.value;
    } else {
      data := data["createdAt" := Date(now)];
      rec := AudioMeeting.Create(db, data, id, now);
    }
    res := Response(200, UploadBody(rec, db.research, p));
  }

  /**
   * `handleUpload` answers 400 exactly when no file came, 200 exactly when both model
   * calls answer and either no meeting is named or the named one exists, and 500
   * otherwise; only a 200 changes the collection.
   */
  lemma {:induction false} UploadStatus(meetings: seq<Doc>, research: seq<Doc>, req: Request, svc: Services, id: ObjectId, now: nat)
    requires Keyed(meetings)
    ensures var h := Upload(meetings, research, req, svc, id, now);
      && h.response.status in {200, 400, 500}
      && (h.response.status == 400 <==> req.file.None?)
      && (h.response.status == 200 <==>
            && req.file.Some?
            && Process(svc, req.file.value, Language(req.body), false).Ok?
            && (Linked(req.body).Some? ==> AudioMeeting.FindById(meetings, Linked(req.body).value).Some?))
      && (h.response.status != 200 ==> h.meetings == meetings)
  {
    if req.file.Some? && Linked(req.body).Some? {
      var r := Process(svc, req.file.value, Language(req.body), false);
      if r.Ok? {
        var data := MeetingData(req.file.value, req.user, r.value, "standard", now);
        AudioMeeting.UpdateMerges(meetings, Linked(req.body).value, data, now);
      }
    }
  }

  /**
   * Without a meeting id, a processed upload adds exactly one completed 'standard'
   * record under the new id, stamped now, owned by the caller and holding the file
   * name, the transcript and the cleaned summary.
   */
  lemma {:induction false} UploadCreates(meetings: seq<Doc>, research: seq<Doc>, req: Request, svc: Services, id: ObjectId, now: nat,
                      p: Processed)
    requires req.file.Some? && Linked(req.body).None?
    requires Process(svc, req.file.value, Language(req.body), false) == Ok(p)
    ensures var h := Upload(meetings, research, req, svc, id, now);
      && |h.meetings| == |meetings| + 1 && h.meetings[..|meetings|] == meetings
      && var rec := h.meetings[|meetings|];
      && Field(rec, "_id") == Some(Id(id))
      && Field(rec, "createdAt") == Some(Date(now)) && Field(rec, "updatedAt") == Some(Date(now))
      && Field(rec, "status") == Some(Str("completed")) && Field(rec, "type") == Some(Str("standard"))
      && Field(rec, "filename") == Some(Str(req.file.value.originalName))
      && Field(rec, "transcript") == Some(Str(p.transcript)) && Field(rec, "summary") == Some(Str(p.summary))
      && Field(rec, "userId") == Some(AudioMeeting.StoredUserId(UserField(req.user, "id")))
  {
    var data := MeetingData(req.file.value, req.user, p, "standard", now);
    var rec := AudioMeeting.Record(data["createdAt" := Date(now)], id, now);
    CreatedRecordFields(req.file.value, req.user, p, "standard", now, id);
    assert Upload(meetings, research, req, svc, id, now) == Store(meetings, research, None, data, id, now, p);
    assert Upload(meetings, research, req, svc, id, now).meetings == meetings + [rec];
    assert (meetings + [rec])[..|meetings|] == meetings;
  }

  /** The answer to such an upload names the new id, the file, the cleaned summary and the research under the new id. */
  lemma {:induction false} UploadAnswersCreated(meetings: seq<Doc>, research: seq<Doc>, req: Request, svc: Services, id: ObjectId, now: nat,
                             p: Processed)
    requires req.file.Some? && Linked(req.body).None?
    requires Process(svc, req.file.value, Language(req.body), false) == Ok(p)
    ensures var h := Upload(meetings, research, req, svc, id, now);
      && h.response.status == 200 && h.response.body.Obj?
      && Field(h.response.body.fields, "meetingId") == Some(Id(id))
      && Field(h.response.body.fields, "filename") == Some(Str(req.file.value.originalName))
      && Field(h.response.body.fields, "summary") == Some(Str(p.summary))
      && Field(h.response.body.fields, "participants") == Some(Arr(Records(ParticipantResearch.FindByMeetingId(research, Id(id)))))
  {
    var data := MeetingData(req.file.value, req.user, p, "standard", now)["createdAt" := Date(now)];
    var rec := AudioMeeting.Record(data, id, now);
    CreatedRecordFields(req.file.value, req.user, p, "standard", now, id);
    assert Upload(meetings, research, req, svc, id, now).response == Response(200, UploadBody(rec, research, p));
  }

  /**
   * With the id of an existing meeting, a processed upload adds no record: that meeting
   * gets the transcript, the summary, status 'completed' and type 'standard', keeps every
   * field the upload does not set (topic, brief, participants, createdAt), and the answer
   * carries the research stored for it during preparation.
   */
  lemma {:induction false} UploadCompletesPrepared(meetings: seq<Doc>, research: seq<Doc>, req: Request, svc: Services, id: ObjectId, now: nat,
                                p: Processed)
    requires Keyed(meetings)
    requires req.file.Some? && Linked(req.body).Some?
    requires AudioMeeting.FindById(meetings, Linked(req.body).value).Some?
    requires Process(svc, req.file.value, Language(req.body), false) == Ok(p)
    ensures var h := Upload(meetings, research, req, svc, id, now);
      var prepared := AudioMeeting.FindById(meetings, Linked(req.body).value).value;
      var after := AudioMeeting.FindById(h.meetings, Linked(req.body).value);
      && |h.meetings| == |meetings|
      && after.Some?
      && Field(after.value, "transcript") == Some(Str(p.transcript))
      && Field(after.value, "summary") == Some(Str(p.summary))
      && Field(after.value, "status") == Some(Str("completed")) && Field(after.value, "type") == Some(Str("standard"))
      && Field(after.value, "updatedAt") == Some(Date(now))
      && Field(after.value, "userId") == Some(AudioMeeting.StoredUserId(UserField(req.user, "id")))
      && Field(after.value, "userEmail") == Some(UserField(req.user, "email"))
      && (forall k :: k in prepared && k !in MeetingData(req.file.value, req.user, p, "standard", now) ==>
            Field(after.value, k) == Some(prepared[k]))
  {
    var data := MeetingData(req.file.value, req.user, p, "standard", now);
    var mid := Linked(req.body).value;
    CompletedRecordFields(meetings, mid, req.file.value, req.user, p, "standard", now);
    assert Upload(meetings, research, req, svc, id, now) == Store(meetings, research, Some(mid), data, id, now, p);
    assert Store(meetings, research, Some(mid), data, id, now, p).meetings == AudioMeeting.Updated(meetings, mid, data, now);
  }

  /** The record an upload's data makes of an existing meeting: the upload's fields merged over the meeting's. */
  lemma {:induction false} CompletedRecordFields(meetings: seq<Doc>, mid: Value, f: File, user: Option<Doc>, p: Processed, kind: string, now: nat)
    requires Keyed(meetings) && AudioMeeting.FindById(meetings, mid).Some?
    ensures var data := MeetingData(f, user, p, kind, now);
      var prepared := AudioMeeting.FindById(meetings, mid).value;
      var after := AudioMeeting.FindById(AudioMeeting.Updated(meetings, mid, data, now), mid);
      && |AudioMeeting.Updated(meetings, mid, data, now)| == |meetings|
      && after.Some?
      && Field(after.value, "transcript") == Some(Str(p.transcript))
      && Field(after.value, "summary") == Some(Str(p.summary))
      && Field(after.value, "status") == Some(Str("completed")) && Field(after.value, "type") == Some(Str(kind))
      && Field(after.value, "updatedAt") == Some(Date(now))
      && Field(after.value, "userId") == Some(AudioMeeting.StoredUserId(UserField(user, "id")))
      && Field(after.value, "userEmail") == Some(UserField(user, "email"))
      && (forall k :: k in prepared && k !in data ==> Field(after.value, k) == Some(prepared[k]))
  {
    var data := MeetingData(f, user, p, kind, now);
    MeetingDataFields(f, user, p, kind, now);
    MeetingDataOwner(f, user, p, kind, now);
    AudioMeeting.UpdateMerges(meetings, mid, data, now);
    CompletedFields(AudioMeeting.FindById(meetings, mid).value,
                    AudioMeeting.FindById(AudioMeeting.Updated(meetings, mid, data, now), mid).value, data, now);
  }

  /** What `UpdateMerges` says of a merged record, read with `Field`. */
  lemma {:induction false} CompletedFields(before: Doc, after: Doc, upd: Doc, now: nat)
    requires after.Keys == before.Keys + upd.Keys + {"updatedAt"}
    requires after["updatedAt"] == Date(now)
    requires forall k :: k in upd && k !in {"updatedAt", "userId"} ==> after[k] == upd[k]
    requires forall k :: k in before && k !in upd && k != "updatedAt" ==> after[k] == before[k]
    requires "userId" in upd ==> after["userId"] == AudioMeeting.StoredUserId(upd["userId"])
    ensures forall k :: k in upd && k !in {"updatedAt", "userId"} ==> Field(after, k) == Some(upd[k])
    ensures "userId" in upd ==> Field(after, "userId") == Some(AudioMeeting.StoredUserId(upd["userId"]))
    ensures forall k :: k in before && k !in upd ==> Field(after, k) == Some(before[k]) || k == "updatedAt"
    ensures Field(after, "updatedAt") == Some(Date(now))
  {
  }

  /**
   * Completing an existing meeting answers with that meeting's id, the cleaned summary
   * and the research stored under the meeting during preparation.
   */
  lemma {:induction false} UploadAnswersPrepared(meetings: seq<Doc>, research: seq<Doc>, req: Request, svc: Services, id: ObjectId, now: nat,
                              p: Processed)
    requires Keyed(meetings)
    requires req.file.Some? && Linked(req.body).Some?
    requires AudioMeeting.FindById(meetings, Linked(req.body).value).Some?
    requires Process(svc, req.file.value, Language(req.body), false) == Ok(p)
    ensures var h := Upload(meetings, research, req, svc, id, now);
      var prepared := AudioMeeting.FindById(meetings, Linked(req.body).value).value;
      && h.response.status == 200 && h.response.body.Obj?
      && Field(h.response.body.fields, "meetingId") == Some(prepared["_id"])
      && Field(h.response.body.fields, "summary") == Some(Str(p.summary))
      && Field(h.response.body.fields, "participants") == Some(Arr(Records(ParticipantResearch.FindByMeetingId(research, prepared["_id"]))))
  {
    var data := MeetingData(req.file.value, req.user, p, "standard", now);
    var mid := Linked(req.body).value;
    AudioMeeting.UpdateMerges(meetings, mid, data, now);
    var after := AudioMeeting.Updated(meetings, mid, data, now);
    var rec := AudioMeeting.FindById(after, mid).value;
    assert Upload(meetings, research, req, svc, id, now) == Store(meetings, research, Some(mid), data, id, now, p);
    assert Store(meetings, research, Some(mid), data, id, now, p) == Handled(after, Response(200, UploadBody(rec, research, p)));
    assert rec["_id"] == AudioMeeting.FindById(meetings, mid).value["_id"];
    var b := UploadBody(rec, research, p);
    assert Field(b.fields, "meetingId") == Some(rec["_id"]);
  }

  /**
   * `handleWhatsAppUpload`: transcribe, summarise with the WhatsApp summariser, and always
   * store a new 'whatsapp' record; a meeting id in the body is not consulted.
   */
  function WhatsApp(meetings: seq<Doc>, req: Request, svc: Services, id: ObjectId, now: nat): Handled {
    if req.file.None? then Handled(meetings, Response(400, Str(NoFile)))
    else
      var f := req.file.value;
      match Process(svc, f, Language(req.body), true)
      case Err(m) => Handled(meetings, Response(500, ErrorDetails(WhatsAppFailure, m)))
      case Ok(p) =>
        var rec := AudioMeeting.Record(MeetingData(f, req.user, p, "whatsapp", now)["createdAt" := Date(now)], id, now);
        Handled(meetings + [rec], Response(200, WhatsAppBody(rec["_id"], f, p)))
  }

  /** The body `handleWhatsAppUpload` answers with once the record is stored. */
  function WhatsAppBody(meetingId: Value, f: File, p: Processed): (r: Value)
    ensures r.Obj? && r.fields.Keys == {"meetingId", "type", "filename", "transcript", "summary", "status"}
    ensures Field(r.fields, "meetingId") == Some(meetingId) && Field(r.fields, "type") == Some(Str("whatsapp"))
    ensures Field(r.fields, "filename") == Some(Str(f.originalName))
    ensures Field(r.fields, "transcript") == Some(Str(p.transcript)) && Field(r.fields, "summary") == Some(Str(p.summary))
    ensures Field(r.fields, "status") == Some(Str("success"))
  {
    Obj(map["meetingId" := meetingId, "type" := Str("whatsapp"), "filename" := Str(f.originalName),
            "transcript" := Str(p.transcript), "summary" := Str(p.summary), "status" := Str("success")])
  }

  /** `handleWhatsAppUpload` on the database. */
  method HandleWhatsAppUpload(db: Db, req: Request, svc: Services, id: ObjectId, now: nat) returns (res: Response)
    requires db.Valid()
    requires Id(id) !in IdsOf(db.meetings)
    modifies db`meetings
    ensures db.Valid()
    ensures Handled(db.meetings, res) == WhatsApp(old(db.meetings), req, svc, id, now)
  {
    if req.file.None? {
      return Response(400, Str(NoFile));
    }
    var f := req.file.value;
    var language := Language(req.body);
    var transcribed := svc.transcribe(f.path, f.mimeType, language);
    if transcribed.Failed? {
      return Response(500, ErrorDetails(WhatsAppFailure, transcribed.message));
    }
    var summarized := SummarizeWhatsApp(svc, transcribed.text, language);
    if summarized.Failed? {
      return Response(500, ErrorDetails(WhatsAppFailure, summarized.message));
    }
    var p := Processed(transcribed.text, summarized.text);
    var data := MeetingData(f, req.user, p, "whatsapp", now)["createdAt" := Date(now)];
    var rec := AudioMeeting.Create(db, data, id, now);
    res := Response(200, Obj(map[
      "meetingId" := rec["_id"], "type" := Str("whatsapp"), "filename" := Str(f.originalName),
      "transcript" := Str(p.transcript), "summary" := Str(p.summary), "status" := Str("success")]));
  }

  /**
   * A WhatsApp upload answers 400 exactly without a file and 200 exactly when both model
   * calls answer; any other answer leaves the collection as it was.
   */
  lemma {:induction false} WhatsAppStatus(meetings: seq<Doc>, req: Request, svc: Services, id: ObjectId, now: nat)
    ensures var h := WhatsApp(meetings, req, svc, id, now);
      && h.response.status in {200, 400, 500}
      && (h.response.status == 400 <==> req.file.None?)
      && (h.response.status == 200 <==> req.file.Some? && Process(svc, req.file.value, Language(req.body), true).Ok?)
      && (h.response.status != 200 ==> h.meetings == meetings)
  {
  }

  /** A processed WhatsApp upload adds exactly one completed 'whatsapp' record under the new id. */
  lemma {:induction false} WhatsAppCreates(meetings: seq<Doc>, req: Request, svc: Services, id: ObjectId, now: nat, p: Processed)
    requires req.file.Some? && Process(svc, req.file.value, Language(req.body), true) == Ok(p)
    ensures var h := WhatsApp(meetings, req, svc, id, now);
      && |h.meetings| == |meetings| + 1 && h.meetings[..|meetings|] == meetings
      && Field(h.meetings[|meetings|], "_id") == Some(Id(id))
      && Field(h.meetings[|meetings|], "type") == Some(Str("whatsapp"))
      && Field(h.meetings[|meetings|], "status") == Some(Str("completed"))
      && Field(h.meetings[|meetings|], "createdAt") == Some(Date(now))
      && Field(h.meetings[|meetings|], "transcript") == Some(Str(p.transcript))
      && Field(h.meetings[|meetings|], "summary") == Some(Str(p.summary))
  {
    var f := req.file.value;
    var rec := AudioMeeting.Record(MeetingData(f, req.user, p, "whatsapp", now)["createdAt" := Date(now)], id, now);
    CreatedRecordFields(f, req.user, p, "whatsapp", now, id);
    assert WhatsApp(meetings, req, svc, id, now).meetings == meetings + [rec];
    assert (meetings + [rec])[..|meetings|] == meetings;
  }

  /** The answer to a processed WhatsApp upload is a success naming the new record's id. */
  lemma {:induction false} WhatsAppAnswers(meetings: seq<Doc>, req: Request, svc: Services, id: ObjectId, now: nat, p: Processed)
    requires req.file.Some? && Process(svc, req.file.value, Language(req.body), true) == Ok(p)
    ensures var h := WhatsApp(meetings, req, svc, id, now);
      && h.response.status == 200 && h.response.body.Obj?
      && Field(h.response.body.fields, "meetingId") == Some(Id(id))
      && Field(h.response.body.fields, "type") == Some(Str("whatsapp"))
      && Field(h.response.body.fields, "summary") == Some(Str(p.summary))
  {
    var f := req.file.value;
    var rec := AudioMeeting.Record(MeetingData(f, req.user, p, "whatsapp", now)["createdAt" := Date(now)], id, now);
    CreatedRecordFields(f, req.user, p, "whatsapp", now, id);
    assert WhatsApp(meetings, req, svc, id, now).response == Response(200, WhatsAppBody(rec["_id"], f, p));
  }

  /** Whatever meeting id the body carries, a WhatsApp upload does the same thing. */
  lemma {:induction false} WhatsAppIgnoresMeetingId(meetings: seq<Doc>, req: Request, svc: Services, id: ObjectId, now: nat, v: Value)
    ensures WhatsApp(meetings, req.(body := req.body["meetingId" := v]), svc, id, now) == WhatsApp(meetings, req, svc, id, now)
  {
    assert Language(req.body["meetingId" := v]) == Language(req.body) by {
      assert Field(req.body["meetingId" := v], "language") == Field(req.body, "language");
    }
  }

  /**
   * One history entry: the record with `meetingId` mirroring `_id` and `timestamp`
   * mirroring `createdAt` (left out when the record has none); nothing else changes.
   */
  function HistoryEntry(d: Doc): (r: Value)
    ensures r.Obj?
    ensures Field(r.fields, "meetingId") == Field(d, "_id")
    ensures Field(r.fields, "timestamp") == Field(d, "createdAt")
    ensures forall k :: k in d && k !in {"meetingId", "timestamp"} ==> Field(r.fields, k) == Some(d[k])
    ensures r.fields.Keys <= d.Keys + {"meetingId", "timestamp"}
    ensures SortKey(r.fields, "timestamp") == SortKey(d, "createdAt")
  {
    Obj(Put(Put(d, "meetingId", Field(d, "_id")), "timestamp", Field(d, "createdAt")))
  }

  /** `getHistory`: 401 without a user id, else the user's meetings, newest first. */
  function GetHistory(meetings: seq<Doc>, user: Option<Doc>): Response {
    var userId := UserField(user, "id");
    if !Truthy(userId) then Response(401, ErrorBody(Unauthorized))
    else
      var history := AudioMeeting.FindByUserId(meetings, userId);
      Response(200, Arr(seq(|history|, i requires 0 <= i < |history| => HistoryEntry(history[i]))))
  }

  /** The history is refused exactly when the token carries no truthy user id. */
  lemma {:induction false} HistoryNeedsUser(meetings: seq<Doc>, user: Option<Doc>)
    ensures var r := GetHistory(meetings, user);
      && (r.status == 401 <==> !Truthy(UserField(user, "id")))
      && (r.status != 401 ==> r.status == 200 && r.body.Arr?)
  {
  }

  /** Every history entry is one of the user's meetings, stored under the user's id in either form. */
  lemma {:induction false} HistoryOnlyOwnMeetings(meetings: seq<Doc>, user: Option<Doc>, i: nat)
    requires GetHistory(meetings, user).status == 200 && i < |GetHistory(meetings, user).body.items|
    ensures exists d :: (d in meetings && FieldIn(d, "userId", IdCandidates(UserField(user, "id")))
                         && GetHistory(meetings, user).body.items[i] == HistoryEntry(d))
  {
    var userId := UserField(user, "id");
    var history := AudioMeeting.FindByUserId(meetings, userId);
    AudioMeeting.FindByUserIdMembers(meetings, userId);
    assert history[i] in history;
    assert GetHistory(meetings, user).body.items[i] == HistoryEntry(history[i]);
  }

  /** Every meeting stored under the user's id, in either form, has its entry in the history. */
  lemma {:induction false} HistoryListsAllOwnMeetings(meetings: seq<Doc>, user: Option<Doc>, d: Doc)
    requires GetHistory(meetings, user).status == 200
    requires d in meetings && FieldIn(d, "userId", IdCandidates(UserField(user, "id")))
    ensures HistoryEntry(d) in GetHistory(meetings, user).body.items
  {
    var userId := UserField(user, "id");
    var history := AudioMeeting.FindByUserId(meetings, userId);
    AudioMeeting.FindByUserIdMembers(meetings, userId);
    var i :| 0 <= i < |history| && history[i] == d;
    assert GetHistory(meetings, user).body.items[i] == HistoryEntry(d);
  }

  /** The history is newest first by `timestamp`. */
  lemma {:induction false} HistoryNewestFirst(meetings: seq<Doc>, user: Option<Doc>)
    requires GetHistory(meetings, user).status == 200
    ensures var items := GetHistory(meetings, user).body.items;
      forall i, j :: 0 <= i < j < |items| ==> SortKey(items[i].fields, "timestamp") >= SortKey(items[j].fields, "timestamp")
  {
    var history := AudioMeeting.FindByUserId(meetings, UserField(user, "id"));
    var items := GetHistory(meetings, user).body.items;
    forall i, j | 0 <= i < j < |items|
      ensures SortKey(items[i].fields, "timestamp") >= SortKey(items[j].fields, "timestamp")
    {
      assert items[i] == HistoryEntry(history[i]) && items[j] == HistoryEntry(history[j]);
    }
  }

  /** `getMeeting`: 404 when no record has that id, else the record and its research. */
  function GetMeeting(meetings: seq<Doc>, research: seq<Doc>, id: string): Response {
    match AudioMeeting.FindById(meetings, Str(id))
    case None => Response(404, ErrorBody(MeetingNotFound))
    case Some(m) => Response(200, Obj(map["meeting" := Obj(m),
      "participants" := Arr(Records(ParticipantResearch.FindByMeetingId(research, m["_id"])))]))
  }

  /**
   * A meeting is found exactly when the id is a valid ObjectId string naming a stored
   * record; the answer is that record, with every research record linked to it by
   * either id form.
   */
  lemma {:induction false} GetMeetingFindsRecord(meetings: seq<Doc>, research: seq<Doc>, id: string)
    ensures var r := GetMeeting(meetings, research, id);
      r.status == 404 <==> !IsValidHex(id) || forall d :: d in meetings ==> !FieldMatches(d, "_id", Id(FromHex(id)))
    ensures var r := GetMeeting(meetings, research, id);
      r.status == 200 ==>
        && r.body.fields["meeting"].Obj?
        && r.body.fields["meeting"].fields in meetings
        && r.body.fields["meeting"].fields["_id"] == Id(FromHex(id))
        && (forall d :: d in research && "meetingId" in d && d["meetingId"] in {Id(FromHex(id)), Str(FromHex(id).hex)} ==>
             Obj(d) in r.body.fields["participants"].items)
        && (forall x :: x in r.body.fields["participants"].items ==>
             x.Obj? && x.fields in research && "meetingId" in x.fields
             && x.fields["meetingId"] in {Id(FromHex(id)), Str(FromHex(id).hex)})
  {
    var m := AudioMeeting.FindById(meetings, Str(id));
    if m.Some? {
      var o := FromHex(id);
      var found := ParticipantResearch.FindByMeetingId(research, Id(o));
      assert GetMeeting(meetings, research, id).body.fields["participants"].items == Records(found);
      RecordsMembers(found);
      ParticipantResearch.FindByMeetingIdOnlyLinked(research, o);
      forall d | d in research && "meetingId" in d && d["meetingId"] in {Id(o), Str(o.hex)}
        ensures d in found
      {
        ParticipantResearch.FindByMeetingIdBothForms(research, o, d);
        assert d in multiset(found);
      }
    }
  }
}
