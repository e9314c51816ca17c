/**
 * The `participant_research` collection and the ParticipantResearch model's operations:
 * insert with a research stamp, lookups by meeting and by email, and the research update.
 */
module ParticipantResearch {
  import opened Wrappers
  import opened Bson
  import opened Query
  import opened Database

  /** The record `create` inserts and returns: the caller's fields, `researchedAt` and the fresh `_id`. */
  function Record(data: Doc, id: ObjectId, now: nat): Doc {
    data["researchedAt" := Date(now)]["_id" := Id(id)]
  }

  /** `create`: inserts exactly one record under a fresh id and returns it. */
  method Create(db: Db, data: Doc, id: ObjectId, now: nat) returns (rec: Doc)
    requires db.Valid()
    requires "_id" !in data
    requires Id(id) !in IdsOf(db.research)
    modifies db`research
    ensures db.Valid()
    ensures rec == Record(data, id, now)
    ensures db.research == old(db.research) + [rec]
  {
    var d := data["researchedAt" := Date(now)];
    rec := d["_id" := Id(id)];
    KeyedAppend(db.research, rec);
    db.research := db.research + [rec];
  }

  /** `findByMeetingId`: every record linked to the meeting id in either representation. */
  function FindByMeetingId(research: seq<Doc>, meetingId: Value): seq<Doc> {
    Find(research, "meetingId", IdCandidates(meetingId))
  }

  /**
   * Records linked by the ObjectId and records linked by its string form are both found,
   * whichever form the caller passes, and none is collapsed: each appears as often as stored.
   */
  lemma {:induction false} FindByMeetingIdBothForms(research: seq<Doc>, meeting: ObjectId, d: Doc)
    requires d in research && "meetingId" in d && d["meetingId"] in {Id(meeting), Str(meeting.hex)}
    ensures multiset(FindByMeetingId(research, Id(meeting)))[d] == multiset(research)[d]
    ensures multiset(FindByMeetingId(research, Str(meeting.hex)))[d] == multiset(research)[d]
  {
    HexRoundTrip(meeting);
    FindCounts(research, "meetingId", IdCandidates(Id(meeting)));
    FindCounts(research, "meetingId", IdCandidates(Str(meeting.hex)));
    assert FieldMatches(d, "meetingId", d["meetingId"]);
    assert d["meetingId"] in IdCandidates(Id(meeting));
    assert d["meetingId"] in IdCandidates(Str(meeting.hex));
  }

  /** Only stored research linked to the meeting, under either form of its id, is found. */
  lemma {:induction false} FindByMeetingIdOnlyLinked(research: seq<Doc>, meeting: ObjectId)
    ensures forall d :: d in FindByMeetingId(research, Id(meeting)) ==>
      d in research && "meetingId" in d && d["meetingId"] in {Id(meeting), Str(meeting.hex)}
  {
    var found := FindByMeetingId(research, Id(meeting));
    FindCounts(research, "meetingId", IdCandidates(Id(meeting)));
    forall d | d in found
      ensures d in research && "meetingId" in d && d["meetingId"] in {Id(meeting), Str(meeting.hex)}
    {
      assert d in multiset(found);
      assert FieldIn(d, "meetingId", [Id(meeting), Str(meeting.hex)]);
    }
  }

  /** A string that is not an ObjectId is matched as that string alone. */
  lemma {:induction false} FindByLegacyMeetingId(research: seq<Doc>, meetingId: string)
    requires !IsValidHex(meetingId)
    ensures forall d :: d in FindByMeetingId(research, Str(meetingId)) ==>
      "meetingId" in d && d["meetingId"] == Str(meetingId)
  {
    forall d | d in FindByMeetingId(research, Str(meetingId))
      ensures "meetingId" in d && d["meetingId"] == Str(meetingId)
    {
      var i :| 0 <= i < |FindByMeetingId(research, Str(meetingId))| && FindByMeetingId(research, Str(meetingId))[i] == d;
      assert FieldIn(d, "meetingId", [Str(meetingId)]);
    }
  }

  /** `findByEmail`: the first record for that email, whatever meeting it belongs to. */
  function FindByEmail(research: seq<Doc>, email: Value): (r: Option<Doc>)
    ensures r.Some? ==> r.value in research && FieldMatches(r.value, "email", email)
    ensures r.None? ==> forall d :: d in research ==> !FieldMatches(d, "email", email)
  {
    FindOne(research, "email", email)
  }

  /** The two fields `updateResearch` sets. */
  function ResearchSet(text: Value, now: nat): Doc {
    map["researchData" := text, "researchedAt" := Date(now)]
  }

  /** The collection after `updateResearch(id, text)`. */
  function ResearchUpdated(research: seq<Doc>, id: Value, text: Value, now: nat): seq<Doc> {
    if !IsValidId(id) then research else UpdateOne(research, "_id", Id(ToObjectId(id)), ResearchSet(text, now))
  }

  /** `updateResearch`: null for an invalid id; otherwise sets the research and re-reads the record. */
  method UpdateResearch(db: Db, id: Value, text: Value, now: nat) returns (r: Option<Doc>)
    requires db.Valid()
    modifies db`research
    ensures db.Valid()
    ensures db.research == ResearchUpdated(old(db.research), id, text, now)
    ensures !IsValidId(id) ==> r.None?
    ensures IsValidId(id) ==> r == FindOne(db.research, "_id", Id(ToObjectId(id)))
  {
    if !IsValidId(id) {
      return None;
    }
    UpdateOneKeyed(db.research, "_id", Id(ToObjectId(id)), ResearchSet(text, now));
    db.research := UpdateOne(db.research, "_id", Id(ToObjectId(id)), map["researchData" := text, "researchedAt" := Date(now)]);
    r := FindOne(db.research, "_id", Id(ToObjectId(id)));
  }

  /**
   * `updateResearch` touches one record: the record with that id gets the new text and
   * stamp and keeps every other field; every other record is unchanged.
   */
  lemma {:induction false} UpdateResearchTouchesOne(research: seq<Doc>, id: Value, text: Value, now: nat, i: nat)
    requires Keyed(research) && IsValidId(id) && i < |research|
    ensures |ResearchUpdated(research, id, text, now)| == |research|
    ensures var before, after := research[i], ResearchUpdated(research, id, text, now)[i];
      if before["_id"] == Id(ToObjectId(id)) then
        && after.Keys == before.Keys + {"researchData", "researchedAt"}
        && after["researchData"] == text && after["researchedAt"] == Date(now)
        && (forall k :: k in before && k !in {"researchData", "researchedAt"} ==> after[k] == before[k])
      else after == before
  {
    UpdateByIdAt(research, Id(ToObjectId(id)), ResearchSet(text, now), i);
  }
}
