/**
 * The preparation endpoint: validate the topic and participants, have the brief
 * generated, store a 'prepared' meeting and one research record per participant, and
 * answer with the brief, the research and the new meeting's id.
 */
module ResearchController {
  import opened Wrappers
  import opened Bson
  import opened Js
  import opened Query
  import opened Database
  import opened Http
  import opened GeminiService
  import AudioMeeting
  import ParticipantResearch
  import MeetingController

  const TopicRequired := "Topic is required"
  const ParticipantsRequired := "At least one participant is required"
  const BriefFailure := "Failed to generate meeting brief"

  /** What the handler leaves behind: both collections it writes, and the response. */
  datatype Prepared = Prepared(meetings: seq<Doc>, research: seq<Doc>, response: Response)

  /**
   * `req.body.participants` when it is an array, else empty: the handler refuses a
   * missing value, a non-array and an empty array alike.
   */
  function ParticipantList(body: Doc): (r: seq<Value>)
    ensures r != [] <==> "participants" in body && body["participants"].Arr? && body["participants"].items != []
    ensures r != [] ==> body["participants"] == Arr(r)
  {
    if "participants" in body && body["participants"].Arr? then body["participants"].items else []
  }

  /** The prepared meeting's `meetingData`, before `create` stamps it. */
  function PreparedData(req: Request, brief: Value, ps: seq<Value>, now: nat): Doc
    requires "topic" in req.body
  {
    map["topic" := req.body["topic"], "brief" := brief, "status" := Str("prepared"), "participants" := Arr(ps),
        "userId" := UserField(req.user, "id"), "userEmail" := UserField(req.user, "email"),
        "type" := Str("preparation"), "createdAt" := Date(now), "updatedAt" := Date(now)]
  }

  /** `r.k` of a research entry as stored: an undefined property is stored as null. */
  function EntryField(r: Value, k: string): Value {
    if r.Obj? && k in r.fields then r.fields[k] else Null
  }

  /** The research record the loop creates for one entry. */
  function ResearchDoc(meetingId: Value, r: Value): Doc {
    map["meetingId" := meetingId, "email" := EntryField(r, "email"), "name" := EntryField(r, "name"),
        "company" := EntryField(r, "company"), "researchData" := EntryField(r, "data")]
  }

  /** The records the loop inserts, in order, the i-th under the i-th fresh id. */
  function ResearchRecords(meetingId: Value, entries: seq<Value>, ids: seq<ObjectId>, now: nat): (r: seq<Doc>)
    requires |ids| >= |entries|
    ensures |r| == |entries|
    ensures forall i :: 0 <= i < |entries| ==> r[i] == ParticipantResearch.Record(ResearchDoc(meetingId, entries[i]), ids[i], now)
  {
    seq(|entries|, i requires 0 <= i < |entries| => ParticipantResearch.Record(ResearchDoc(meetingId, entries[i]), ids[i], now))
  }

  /** The keys `{...v}` copies: an object's own fields, an array's or a string's indices. */
  function Spread(v: Value): Doc {
    match v
    case Obj(f) => f
    case Arr(items) => IndexKeys(items)
    case Str(s) => IndexKeys(seq(|s|, i requires 0 <= i < |s| => Str([s[i]])))
    case _ => map[]
  }

  /** `{"0": vs[0], "1": vs[1], ...}`. */
  function IndexKeys(vs: seq<Value>): Doc
    decreases |vs|
  {
    if vs == [] then map[] else IndexKeys(vs[..|vs| - 1])[NatToDecimal(|vs| - 1) := vs[|vs| - 1]]
  }

  /** The success body: the brief's keys, then `researchResults`, then `meetingId`, later keys winning. */
  function PreparedBody(brief: Value, results: Value, meetingId: Value): (r: Value)
    ensures r.Obj? && r.fields.Keys == Spread(brief).Keys + {"researchResults", "meetingId"}
    ensures r.fields["meetingId"] == meetingId && r.fields["researchResults"] == results
    ensures forall k :: k in Spread(brief) && k !in {"researchResults", "meetingId"} ==> r.fields[k] == Spread(brief)[k]
  {
    Obj(Spread(brief)["researchResults" := results]["meetingId" := meetingId])
  }

  /**
   * `handlePreparation`; `id` is the id the driver gives the meeting and `researchIds`
   * those it gives the research records, one per participant.
   */
  function Prepare(meetings: seq<Doc>, research: seq<Doc>, req: Request, svc: Services,
                   id: ObjectId, researchIds: seq<ObjectId>, now: nat): Prepared
    requires |researchIds| == |ParticipantList(req.body)|
  {
    if !Defined(Field(req.body, "topic")) then
      Prepared(meetings, research, Response(400, ErrorBody(TopicRequired)))
    else if ParticipantList(req.body) == [] then
      Prepared(meetings, research, Response(400, ErrorBody(ParticipantsRequired)))
    else
      var ps := ParticipantList(req.body);
      match GenerateMeetingBrief(svc, req.body["topic"], ps)
      case Err(m) => Prepared(meetings, research, Response(500, ErrorDetails(BriefFailure, m)))
      case Ok(w) => Finish(meetings, research, req, ps, w, id, researchIds, now)
  }

  /** The shape of what `generateMeetingBrief` hands back, once parsed. */
  predicate IsWrapper(w: Value, count: nat) {
    && w.Obj? && "briefData" in w.fields && "researchResults" in w.fields
    && w.fields["researchResults"].Arr? && |w.fields["researchResults"].items| == count
  }

  /** The writes and the answer once the brief is generated. */
  function Finish(meetings: seq<Doc>, research: seq<Doc>, req: Request, ps: seq<Value>, w: Value,
                  id: ObjectId, researchIds: seq<ObjectId>, now: nat): Prepared
    requires "topic" in req.body && IsWrapper(w, |researchIds|)
  {
    var brief := w.fields["briefData"];
    var results := w.fields["researchResults"];
    var rec := AudioMeeting.Record(PreparedData(req, brief, ps, now), id, now);
    Prepared(meetings + [rec], research + ResearchRecords(rec["_id"], results.items, researchIds, now),
             Response(200, PreparedBody(brief, results, rec["_id"])))
  }

  /** The `for ... of researchResults` loop: one `ParticipantResearch.create` per entry, in order. */
  method StoreResearch(db: Db, meetingId: Value, entries: seq<Value>, ids: seq<ObjectId>, now: nat)
    requires db.Valid()
    requires |ids| == |entries|
    requires forall i :: 0 <= i < |ids| ==> Id(ids[i]) !in IdsOf(db.research)
    requires forall i, j :: 0 <= i < j < |ids| ==> ids[i] != ids[j]
    modifies db`research
    ensures db.Valid()
    ensures db.research == old(db.research) + ResearchRecords(meetingId, entries, ids, now)
  {
    ghost var added := ResearchRecords(meetingId, entries, ids, now);
    var i := 0;
    while i < |entries|
      invariant 0 <= i <= |entries|
      invariant db.Valid()
      invariant db.research == old(db.research) + added[..i]
      invariant forall j :: i <= j < |ids| ==> Id(ids[j]) !in IdsOf(db.research)
    {
      var doc := ResearchDoc(meetingId, entries[i]);
      KeyedAppend(db.research, ParticipantResearch.Record(doc, ids[i], now));
      var stored := ParticipantResearch.Create(db, doc, ids[i], now);
      assert added[..i + 1] == added[..i] + [stored];
      i := i + 1;
    }
    assert added[..i] == added;
  }

  /** `handlePreparation` on the database: one meeting insert, then one research insert per entry. */
  method HandlePreparation(db: Db, req: Request, svc: Services, id: ObjectId, researchIds: seq<ObjectId>, now: nat)
    returns (res: Response)
    requires db.Valid()
    requires Id(id) !in IdsOf(db.meetings)
    requires |researchIds| == |ParticipantList(req.body)|
    requires forall i :: 0 <= i < |researchIds| ==> Id(researchIds[i]) !in IdsOf(db.research)
    requires forall i, j :: 0 <= i < j < |researchIds| ==> researchIds[i] != researchIds[j]
    modifies db`meetings, db`research
    ensures db.Valid()
    ensures Prepared(db.meetings, db.research, res) ==
      Prepare(old(db.meetings), old(db.research), req, svc, id, researchIds, now)
  {
    if !Defined(Field(req.body, "topic")) {
      return Response(400, ErrorBody(TopicRequired));
    }
    var ps := ParticipantList(req.body);
    if ps == [] {
      return Response(400, ErrorBody(ParticipantsRequired));
    }
    var generated := GenerateMeetingBrief(svc, req.body["topic"], ps);
    if generated.Err? {
      return Response(500, ErrorDetails(BriefFailure, generated.message));
    }
    var brief := generated.value.fields["briefData"];
    // `researchResults || []`: the generator always supplies an array, so the default never applies.
    var results := generated.value.fields["researchResults"];
    var rec := AudioMeeting.Create(db, PreparedData(req, brief, ps, now), id, now);
    StoreResearch(db, rec["_id"], results.items, researchIds, now);
    res := Response(200, PreparedBody(brief, results, rec["_id"]));
  }

  /**
   * The handler answers 400 exactly when the topic is falsy (checked first) or the
   * participants are not a non-empty array, 500 exactly when the brief cannot be
   * generated, and 200 otherwise; only a 200 writes anything.
   */
  lemma {:induction false} PrepareStatus(meetings: seq<Doc>, research: seq<Doc>, req: Request, svc: Services,
                      id: ObjectId, researchIds: seq<ObjectId>, now: nat)
    requires |researchIds| == |ParticipantList(req.body)|
    ensures var r := Prepare(meetings, research, req, svc, id, researchIds, now);
      && r.response.status in {200, 400, 500}
      && (r.response.status == 400 <==> !Defined(Field(req.body, "topic")) || ParticipantList(req.body) == [])
      && (!Defined(Field(req.body, "topic")) ==> r.response.body == ErrorBody(TopicRequired))
      && (r.response.status == 500 <==>
            (Defined(Field(req.body, "topic")) && ParticipantList(req.body) != []
             && GenerateMeetingBrief(svc, req.body["topic"], ParticipantList(req.body)).Err?))
      && (r.response.status != 200 ==> r.meetings == meetings && r.research == research)
  {
  }

  /**
   * A successful preparation stores exactly one meeting, under the new id, with status
   * 'prepared', type 'preparation', the topic, the generated brief and the participants,
   * owned by the caller.
   */
  lemma {:induction false} PrepareStoresMeeting(meetings: seq<Doc>, research: seq<Doc>, req: Request, svc: Services,
                             id: ObjectId, researchIds: seq<ObjectId>, now: nat, w: Value)
    requires |researchIds| == |ParticipantList(req.body)|
    requires Defined(Field(req.body, "topic")) && ParticipantList(req.body) != []
    requires GenerateMeetingBrief(svc, req.body["topic"], ParticipantList(req.body)) == Ok(w)
    ensures var r := Prepare(meetings, research, req, svc, id, researchIds, now);
      && |r.meetings| == |meetings| + 1 && r.meetings[..|meetings|] == meetings
      && var rec := r.meetings[|meetings|];
      && Field(rec, "_id") == Some(Id(id))
      && Field(rec, "status") == Some(Str("prepared")) && Field(rec, "type") == Some(Str("preparation"))
      && Field(rec, "topic") == Some(req.body["topic"])
      && Field(rec, "brief") == Some(w.fields["briefData"])
      && Field(rec, "participants") == Some(req.body["participants"])
      && Field(rec, "createdAt") == Some(Date(now))
      && Field(rec, "userId") == Some(AudioMeeting.StoredUserId(UserField(req.user, "id")))
  {
    var ps := ParticipantList(req.body);
    assert Prepare(meetings, research, req, svc, id, researchIds, now) == Finish(meetings, research, req, ps, w, id, researchIds, now);
    var rec := AudioMeeting.Record(PreparedData(req, w.fields["briefData"], ps, now), id, now);
    PreparedRecordFields(req, w.fields["briefData"], ps, now, id);
    assert (meetings + [rec])[..|meetings|] == meetings;
  }

  /** The record `create` makes of the prepared meeting's data. */
  lemma {:induction false} PreparedRecordFields(req: Request, brief: Value, ps: seq<Value>, now: nat, id: ObjectId)
    requires "topic" in req.body
    ensures var rec := AudioMeeting.Record(PreparedData(req, brief, ps, now), id, now);
      && Field(rec, "_id") == Some(Id(id))
      && Field(rec, "status") == Some(Str("prepared")) && Field(rec, "type") == Some(Str("preparation"))
      && Field(rec, "topic") == Some(req.body["topic"])
      && Field(rec, "brief") == Some(brief)
      && Field(rec, "participants") == Some(Arr(ps))
      && Field(rec, "createdAt") == Some(Date(now))
      && Field(rec, "userId") == Some(AudioMeeting.StoredUserId(UserField(req.user, "id")))
  {
    var data := PreparedData(req, brief, ps, now);
    AudioMeeting.RecordFields(data, id, now);
    assert Field(data, "status") == Some(Str("prepared"));
    assert Field(data, "topic") == Some(req.body["topic"]);
    assert Field(data, "brief") == Some(brief);
    assert Field(data, "participants") == Some(Arr(ps));
    assert Field(data, "type") == Some(Str("preparation"));
    assert data["userId"] == UserField(req.user, "id");
  }

  /** A stored copy of an optional property: undefined is stored as null. */
  function Stored(o: Option<Value>): Value {
    if o.Some? then o.value else Null
  }

  /**
   * A successful preparation appends one research record per participant, in order:
   * record i has the i-th fresh id, links to the new meeting, copies participant i's
   * name, email and company, and holds participant i's research text (the fallback
   * text when the search failed).
   */
  lemma {:induction false} PrepareStoresResearch(meetings: seq<Doc>, research: seq<Doc>, req: Request, svc: Services,
                              id: ObjectId, researchIds: seq<ObjectId>, now: nat, i: nat)
    requires |researchIds| == |ParticipantList(req.body)|
    requires Prepare(meetings, research, req, svc, id, researchIds, now).response.status == 200
    requires i < |ParticipantList(req.body)|
    ensures var r := Prepare(meetings, research, req, svc, id, researchIds, now);
      var p := ParticipantList(req.body)[i];
      && |r.research| == |research| + |ParticipantList(req.body)| && r.research[..|research|] == research
      && p != Null
      && Field(r.research[|research| + i], "_id") == Some(Id(researchIds[i]))
      && Field(r.research[|research| + i], "meetingId") == Some(Id(id))
      && Field(r.research[|research| + i], "name") == Some(Stored(Prop(p, "name")))
      && Field(r.research[|research| + i], "email") == Some(Stored(Prop(p, "email")))
      && Field(r.research[|research| + i], "company") == Some(Stored(Prop(p, "company")))
      && Field(r.research[|research| + i], "researchData") == Some(Str(ResearchParticipant(svc, p)))
  {
    var ps := ParticipantList(req.body);
    var topic := req.body["topic"];
    BriefZipsParticipants(svc, topic, ps);
    var w := GenerateMeetingBrief(svc, topic, ps).value;
    assert Prepare(meetings, research, req, svc, id, researchIds, now) == Finish(meetings, research, req, ps, w, id, researchIds, now);
    var entries := w.fields["researchResults"].items;
    var rec := AudioMeeting.Record(PreparedData(req, w.fields["briefData"], ps, now), id, now);
    PreparedRecordFields(req, w.fields["briefData"], ps, now, id);
    var added := ResearchRecords(rec["_id"], entries, researchIds, now);
    assert (research + added)[..|research|] == research;
    assert (research + added)[|research| + i] == added[i];
    ResearchEntryFields(ps[i], ResearchParticipant(svc, ps[i]));
    StoredEntryFields(Id(id), ps[i], ResearchParticipant(svc, ps[i]), researchIds[i], now);
  }

  /** The research record stored for one participant's entry. */
  lemma {:induction false} StoredEntryFields(meetingId: Value, p: Value, text: string, rid: ObjectId, now: nat)
    requires p != Null
    ensures var d := ParticipantResearch.Record(ResearchDoc(meetingId, ResearchEntry(p, text)), rid, now);
      && Field(d, "_id") == Some(Id(rid))
      && Field(d, "meetingId") == Some(meetingId)
      && Field(d, "name") == Some(Stored(Prop(p, "name")))
      && Field(d, "email") == Some(Stored(Prop(p, "email")))
      && Field(d, "company") == Some(Stored(Prop(p, "company")))
      && Field(d, "researchData") == Some(Str(text))
  {
    ResearchEntryFields(p, text);
  }

  /**
   * After a successful preparation, looking up research by the new meeting's id finds
   * what was there before followed by every record just stored, in order.
   */
  lemma {:induction false} PreparedResearchIsFound(meetings: seq<Doc>, research: seq<Doc>, req: Request, svc: Services,
                                id: ObjectId, researchIds: seq<ObjectId>, now: nat)
    requires |researchIds| == |ParticipantList(req.body)|
    requires Prepare(meetings, research, req, svc, id, researchIds, now).response.status == 200
    ensures var r := Prepare(meetings, research, req, svc, id, researchIds, now);
      ParticipantResearch.FindByMeetingId(r.research, Id(id)) ==
        ParticipantResearch.FindByMeetingId(research, Id(id)) + r.research[|research|..]
  {
    var ps := ParticipantList(req.body);
    var w := GenerateMeetingBrief(svc, req.body["topic"], ps).value;
    var r := Prepare(meetings, research, req, svc, id, researchIds, now);
    assert r == Finish(meetings, research, req, ps, w, id, researchIds, now);
    var entries := w.fields["researchResults"].items;
    var rec := AudioMeeting.Record(PreparedData(req, w.fields["briefData"], ps, now), id, now);
    assert rec["_id"] == Id(id) by {
      PreparedRecordFields(req, w.fields["briefData"], ps, now, id);
    }
    var added := ResearchRecords(Id(id), entries, researchIds, now);
    assert r.research[|research|..] == added by {
      assert r.research == research + added;
    }
    RecordsUnderMeeting(id, entries, researchIds, now);
    FindAppendAll(research, added, "meetingId", IdCandidates(Id(id)));
  }

  /** Every record the loop stores names the meeting it was stored for. */
  lemma {:induction false} RecordsUnderMeeting(id: ObjectId, entries: seq<Value>, ids: seq<ObjectId>, now: nat)
    requires |ids| >= |entries|
    ensures var added := ResearchRecords(Id(id), entries, ids, now);
      forall j :: 0 <= j < |added| ==> FieldIn(added[j], "meetingId", IdCandidates(Id(id)))
  {
    var added := ResearchRecords(Id(id), entries, ids, now);
    forall j | 0 <= j < |added| ensures FieldIn(added[j], "meetingId", IdCandidates(Id(id))) {
      assert added[j]["meetingId"] == Id(id);
      assert FieldMatches(added[j], "meetingId", Id(id));
    }
  }

  /**
   * The answer holds every key of the brief except the two it sets, the research entries
   * (one per participant) and the new meeting's id, which wins over a brief key of that name.
   */
  lemma {:induction false} PrepareAnswer(meetings: seq<Doc>, research: seq<Doc>, req: Request, svc: Services,
                      id: ObjectId, researchIds: seq<ObjectId>, now: nat, w: Value)
    requires |researchIds| == |ParticipantList(req.body)|
    requires Defined(Field(req.body, "topic")) && ParticipantList(req.body) != []
    requires GenerateMeetingBrief(svc, req.body["topic"], ParticipantList(req.body)) == Ok(w)
    ensures var b := Prepare(meetings, research, req, svc, id, researchIds, now).response.body;
      && b.Obj?
      && Field(b.fields, "meetingId") == Some(Id(id))
      && Field(b.fields, "researchResults") == Some(w.fields["researchResults"])
      && |w.fields["researchResults"].items| == |ParticipantList(req.body)|
      && (w.fields["briefData"].Obj? ==>
            forall k :: k in w.fields["briefData"].fields && k !in {"researchResults", "meetingId"} ==>
              Field(b.fields, k) == Some(w.fields["briefData"].fields[k]))
  {
    var ps := ParticipantList(req.body);
    var brief, results := w.fields["briefData"], w.fields["researchResults"];
    var rec := AudioMeeting.Record(PreparedData(req, brief, ps, now), id, now);
    assert rec["_id"] == Id(id) by {
      PreparedRecordFields(req, brief, ps, now, id);
    }
    assert Prepare(meetings, research, req, svc, id, researchIds, now).response
        == Response(200, PreparedBody(brief, results, Id(id)));
    if brief.Obj? {
      BriefKeysKept(brief.fields, results, Id(id));
    }
  }

  /** Every key of an object brief other than the two the handler sets reaches the answer unchanged. */
  lemma {:induction false} BriefKeysKept(f: map<string, Value>, results: Value, meetingId: Value)
    ensures forall k :: k in f && k !in {"researchResults", "meetingId"} ==>
      Field(PreparedBody(Obj(f), results, meetingId).fields, k) == Some(f[k])
  {
    assert Spread(Obj(f)) == f;
  }

  /** A meeting appended under a fresh id is the one `findById` finds for that id. */
  lemma {:induction false} FindAppendedById(meetings: seq<Doc>, rec: Doc, v: Value)
    requires Keyed(meetings) && IsValidId(v) && "_id" in rec && rec["_id"] == Id(ToObjectId(v))
    requires rec["_id"] !in IdsOf(meetings)
    ensures AudioMeeting.FindById(meetings + [rec], v) == Some(rec)
  {
    var all := meetings + [rec];
    assert FieldMatches(all[|meetings|], "_id", Id(ToObjectId(v)));
    var found := AudioMeeting.FindById(all, v);
    var i :| 0 <= i < |all| && all[i] == found.value && FieldMatches(all[i], "_id", Id(ToObjectId(v)));
  }

  /**
   * Preparation then upload: once a meeting is prepared, an upload naming its id (in
   * either form) completes that meeting without adding one, and answers with every
   * research record the preparation stored for it.
   */
  lemma {:induction false} PreparedMeetingCompletedByUpload(meetings: seq<Doc>, research: seq<Doc>, req: Request, svc: Services,
                                         id: ObjectId, researchIds: seq<ObjectId>, now: nat,
                                         upload: Request, uploadSvc: Services, uploadId: ObjectId, later: nat,
                                         p: MeetingController.Processed)
    requires Keyed(meetings) && Id(id) !in IdsOf(meetings)
    requires |researchIds| == |ParticipantList(req.body)|
    requires Prepare(meetings, research, req, svc, id, researchIds, now).response.status == 200
    requires upload.file.Some? && MeetingController.Linked(upload.body).Some?
    requires IsValidId(MeetingController.Linked(upload.body).value)
    requires ToObjectId(MeetingController.Linked(upload.body).value) == id
    requires MeetingController.Process(uploadSvc, upload.file.value, Language(upload.body), false) == Ok(p)
    ensures var r := Prepare(meetings, research, req, svc, id, researchIds, now);
      var h := MeetingController.Upload(r.meetings, r.research, upload, uploadSvc, uploadId, later);
      && |h.meetings| == |r.meetings|
      && h.response.status == 200 && h.response.body.Obj?
      && Field(h.response.body.fields, "meetingId") == Some(Id(id))
      && Field(h.response.body.fields, "participants") ==
           Some(Arr(Records(ParticipantResearch.FindByMeetingId(research, Id(id)) + r.research[|research|..])))
  {
    var r := Prepare(meetings, research, req, svc, id, researchIds, now);
    var ps := ParticipantList(req.body);
    var w := GenerateMeetingBrief(svc, req.body["topic"], ps).value;
    assert r == Finish(meetings, research, req, ps, w, id, researchIds, now);
    var rec := AudioMeeting.Record(PreparedData(req, w.fields["briefData"], ps, now), id, now);
    PreparedRecordFields(req, w.fields["briefData"], ps, now, id);
    assert r.meetings == meetings + [rec];
    KeyedAppend(meetings, rec);
    var v := MeetingController.Linked(upload.body).value;
    FindAppendedById(meetings, rec, v);
    MeetingController.UploadCompletesPrepared(r.meetings, r.research, upload, uploadSvc, uploadId, later, p);
    MeetingController.UploadAnswersPrepared(r.meetings, r.research, upload, uploadSvc, uploadId, later, p);
    PreparedResearchIsFound(meetings, research, req, svc, id, researchIds, now);
  }
}
