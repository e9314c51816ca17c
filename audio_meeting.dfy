/**
 * The `audio_meetings` collection and the AudioMeeting model's operations on it:
 * insert with stamps, lookups by id and by owner, and `$set` updates.
 */
module AudioMeeting {
  import opened Wrappers
  import opened Bson
  import opened Js
  import opened Query
  import opened Database

  /** `userId` as create and update store it: a string `new ObjectId` accepts becomes that ObjectId. */
  function StoredUserId(v: Value): Value {
    if Truthy(v) && v.Str? && IsValidHex(v.s) then Id(FromHex(v.s)) else v
  }

  function ConvertUserId(d: Doc): Doc {
    if "userId" in d then d["userId" := StoredUserId(d["userId"])] else d
  }

  /** The document `create` inserts, before the driver adds `_id`. */
  function Stamped(data: Doc, now: nat): Doc {
    var d := data["createdAt" := Date(now)]["updatedAt" := Date(now)];
    ConvertUserId(d["status" := if Defined(Field(data, "status")) then data["status"] else Str("uploaded")])
  }

  /** The record `create` inserts and returns. */
  function Record(data: Doc, id: ObjectId, now: nat): Doc {
    Stamped(data, now)["_id" := Id(id)]
  }

  /**
   * What `create` keeps and what it replaces: fresh stamps overwrite any given ones, a
   * truthy status is kept and a falsy one becomes 'uploaded', a convertible string userId
   * becomes an ObjectId, and every other field is stored as given.
   */
  lemma {:induction false} CreateStamps(data: Doc, id: ObjectId, now: nat)
    ensures var r := Record(data, id, now);
      && r.Keys == data.Keys + {"_id", "createdAt", "updatedAt", "status"}
      && r["_id"] == Id(id) && r["createdAt"] == Date(now) && r["updatedAt"] == Date(now)
      && (Defined(Field(data, "status")) ==> r["status"] == data["status"])
      && (!Defined(Field(data, "status")) ==> r["status"] == Str("uploaded"))
      && ("userId" in data && data["userId"].Str? && IsValidHex(data["userId"].s) ==>
            r["userId"] == Id(FromHex(data["userId"].s)))
      && ("userId" in data && !(data["userId"].Str? && IsValidHex(data["userId"].s)) ==>
            r["userId"] == data["userId"])
      && (forall k :: k in data && k !in {"_id", "createdAt", "updatedAt", "status", "userId"} ==> r[k] == data[k])
  {
  }

  /** `CreateStamps` field by field, for callers that read the record with `Field`. */
  lemma {:induction false} RecordFields(data: Doc, id: ObjectId, now: nat)
    ensures var r := Record(data, id, now);
      && Field(r, "_id") == Some(Id(id))
      && Field(r, "createdAt") == Some(Date(now)) && Field(r, "updatedAt") == Some(Date(now))
      && (Defined(Field(data, "status")) ==> Field(r, "status") == Field(data, "status"))
      && ("userId" in data ==> Field(r, "userId") == Some(StoredUserId(data["userId"])))
      && (forall k :: k !in {"_id", "createdAt", "updatedAt", "status", "userId"} ==> Field(r, k) == Field(data, k))
  {
  }

  /** `create`: inserts exactly one record under a fresh id and returns it. */
  method Create(db: Db, data: Doc, id: ObjectId, now: nat) returns (rec: Doc)
    requires db.Valid()
    requires "_id" !in data
    requires Id(id) !in IdsOf(db.meetings)
    modifies db`meetings
    ensures db.Valid()
    ensures rec == Record(data, id, now)
    ensures db.meetings == old(db.meetings) + [rec]
  {
    var d := data;
    d := d["createdAt" := Date(now)];
    d := d["updatedAt" := Date(now)];
    d := d["status" := if Defined(Field(d, "status")) then d["status"] else Str("uploaded")];
    if "userId" in d && Truthy(d["userId"]) && d["userId"].Str? {
      if IsValidHex(d["userId"].s) {
        d := d["userId" := Id(FromHex(d["userId"].s))];
      }
    }
    rec := d["_id" := Id(id)];
    KeyedAppend(db.meetings, rec);
    db.meetings := db.meetings + [rec];
  }

  /** `findById`: null for an id `ObjectId.isValid` rejects, else the record with that `_id`. */
  function FindById(meetings: seq<Doc>, id: Value): (r: Option<Doc>)
    ensures !IsValidId(id) ==> r.None?
    ensures r.Some? ==> r.value in meetings && "_id" in r.value && r.value["_id"] == Id(ToObjectId(id))
    ensures IsValidId(id) && r.None? ==> forall d :: d in meetings ==> !FieldMatches(d, "_id", Id(ToObjectId(id)))
  {
    if !IsValidId(id) then None else FindOne(meetings, "_id", Id(ToObjectId(id)))
  }

  /** `findByUserId`: the records owned by the id in either representation, newest `createdAt` first. */
  function FindByUserId(meetings: seq<Doc>, userId: Value): seq<Doc> {
    SortDesc(Find(meetings, "userId", IdCandidates(userId)), "createdAt")
  }

  /**
   * Every record `findByUserId` returns belongs to the user, every record of the user
   * is returned as often as stored, and the list is newest first.
   */
  lemma {:induction false} FindByUserIdSpec(meetings: seq<Doc>, userId: Value)
    ensures var r := FindByUserId(meetings, userId);
      && SortedDesc(r, "createdAt")
      && (forall d :: d in r ==> FieldIn(d, "userId", IdCandidates(userId)))
      && (forall d :: multiset(r)[d] == if FieldIn(d, "userId", IdCandidates(userId)) then multiset(meetings)[d] else 0)
  {
    var found := Find(meetings, "userId", IdCandidates(userId));
    SortDescPermutes(found, "createdAt");
    FindCounts(meetings, "userId", IdCandidates(userId));
    forall d | d in FindByUserId(meetings, userId) ensures FieldIn(d, "userId", IdCandidates(userId)) {
      assert d in multiset(found);
    }
  }

  /** The records `findByUserId` returns are exactly the user's records. */
  lemma {:induction false} FindByUserIdMembers(meetings: seq<Doc>, userId: Value)
    ensures forall d :: d in FindByUserId(meetings, userId) <==> d in meetings && FieldIn(d, "userId", IdCandidates(userId))
  {
    FindByUserIdSpec(meetings, userId);
    forall d ensures d in FindByUserId(meetings, userId) <==> d in meetings && FieldIn(d, "userId", IdCandidates(userId)) {
      assert d in FindByUserId(meetings, userId) <==> d in multiset(FindByUserId(meetings, userId));
      assert d in meetings <==> d in multiset(meetings);
    }
  }

  /** A record stored under a user's ObjectId and one stored under its string form are both found. */
  lemma {:induction false} FindByUserIdBothForms(meetings: seq<Doc>, user: ObjectId, d: Doc)
    requires d in meetings && "userId" in d && d["userId"] in {Id(user), Str(user.hex)}
    ensures d in FindByUserId(meetings, Id(user))
    ensures d in FindByUserId(meetings, Str(user.hex))
  {
    HexRoundTrip(user);
    FindByUserIdSpec(meetings, Id(user));
    FindByUserIdSpec(meetings, Str(user.hex));
    assert d["userId"] in IdCandidates(Id(user)) && FieldMatches(d, "userId", d["userId"]);
    assert d["userId"] in IdCandidates(Str(user.hex));
    assert multiset(FindByUserId(meetings, Id(user)))[d] > 0;
    assert multiset(FindByUserId(meetings, Str(user.hex)))[d] > 0;
  }

  /** The fields `update` `$set`s: the caller's, a fresh `updatedAt`, and the converted userId. */
  function UpdateSet(upd: Doc, now: nat): Doc {
    ConvertUserId(upd["updatedAt" := Date(now)])
  }

  /** The collection after `update(id, upd)`. */
  function Updated(meetings: seq<Doc>, id: Value, upd: Doc, now: nat): seq<Doc> {
    if !IsValidId(id) then meetings else UpdateOne(meetings, "_id", Id(ToObjectId(id)), UpdateSet(upd, now))
  }

  /** `update`: merges the given fields into the record with that id and returns the re-read record. */
  method Update(db: Db, id: Value, upd: Doc, now: nat) returns (r: Option<Doc>)
    requires db.Valid()
    requires "_id" !in upd
    modifies db`meetings
    ensures db.Valid()
    ensures db.meetings == Updated(old(db.meetings), id, upd, now)
    ensures r == FindById(db.meetings, id)
  {
    if !IsValidId(id) {
      return None;
    }
    var fields := upd;
    fields := fields["updatedAt" := Date(now)];
    if "userId" in fields && Truthy(fields["userId"]) && fields["userId"].Str? {
      if IsValidHex(fields["userId"].s) {
        fields := fields["userId" := Id(FromHex(fields["userId"].s))];
      }
    }
    assert fields == UpdateSet(upd, now);
    UpdateOneKeyed(db.meetings, "_id", Id(ToObjectId(id)), fields);
    db.meetings := UpdateOne(db.meetings, "_id", Id(ToObjectId(id)), fields);
    r := FindById(db.meetings, id);
  }

  /**
   * `update` on an invalid or unknown id changes nothing and yields null; on a known id it
   * changes that record alone, setting exactly the given fields and `updatedAt` (a
   * convertible string `userId` stored as its ObjectId), and every other field of the record survives.
   */
  lemma {:induction false} UpdateMerges(meetings: seq<Doc>, id: Value, upd: Doc, now: nat)
    requires Keyed(meetings) && "_id" !in upd
    ensures FindById(meetings, id).None? ==>
      Updated(meetings, id, upd, now) == meetings && FindById(Updated(meetings, id, upd, now), id).None?
    ensures FindById(meetings, id).Some? ==>
      var before, after := FindById(meetings, id).value, FindById(Updated(meetings, id, upd, now), id);
      && after.Some?
      && after.value.Keys == before.Keys + upd.Keys + {"updatedAt"}
      && after.value["updatedAt"] == Date(now)
      && (forall k :: k in upd && k !in {"updatedAt", "userId"} ==> after.value[k] == upd[k])
      && ("userId" in upd ==> after.value["userId"] == StoredUserId(upd["userId"]))
      && (forall k :: k in before && k !in upd && k != "updatedAt" ==> after.value[k] == before[k])
    ensures |Updated(meetings, id, upd, now)| == |meetings|
  {
    if IsValidId(id) {
      var fields := UpdateSet(upd, now);
      if FindById(meetings, id).None? {
        UpdateOneNoMatch(meetings, "_id", Id(ToObjectId(id)), fields);
      } else {
        UpdateOneReread(meetings, "_id", Id(ToObjectId(id)), fields);
        SetUpdateFields(FindById(meetings, id).value, upd, now);
      }
    }
  }

  /** The record `update` leaves: its old fields with the given ones and `updatedAt` merged in. */
  lemma {:induction false} SetUpdateFields(before: Doc, upd: Doc, now: nat)
    ensures var after := SetFields(before, UpdateSet(upd, now));
      && after.Keys == before.Keys + upd.Keys + {"updatedAt"}
      && after["updatedAt"] == Date(now)
      && (forall k :: k in upd && k !in {"updatedAt", "userId"} ==> after[k] == upd[k])
      && ("userId" in upd ==> after["userId"] == StoredUserId(upd["userId"]))
      && (forall k :: k in before && k !in upd && k != "updatedAt" ==> after[k] == before[k])
  {
  }

  /** `updateTranscript`: sets the transcript alone. */
  method UpdateTranscript(db: Db, id: Value, transcript: Value, now: nat) returns (r: Option<Doc>)
    requires db.Valid()
    modifies db`meetings
    ensures db.Valid()
    ensures db.meetings == Updated(old(db.meetings), id, map["transcript" := transcript], now)
    ensures r == FindById(db.meetings, id)
  {
    r := Update(db, id, map["transcript" := transcript], now);
  }

  /** `updateSummary`: sets the summary and marks the meeting completed. */
  method UpdateSummary(db: Db, id: Value, summary: Value, now: nat) returns (r: Option<Doc>)
    requires db.Valid()
    modifies db`meetings
    ensures db.Valid()
    ensures db.meetings == Updated(old(db.meetings), id, map["summary" := summary, "status" := Str("completed")], now)
    ensures r == FindById(db.meetings, id)
  {
    r := Update(db, id, map["summary" := summary, "status" := Str("completed")], now);
  }
}
