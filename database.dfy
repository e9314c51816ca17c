/** The application's MongoDB database, reduced to the collections the core reads and writes. */
module Database {
  import opened Bson
  import opened Query

  class Db {
    /** `audio_meetings`: meetings, prepared or completed. */
    var meetings: seq<Doc>
    /** `participant_research`: one research text per participant of a meeting. */
    var research: seq<Doc>
    /** `participants`: research written by an earlier version, keyed by the legacy meeting id; only read. */
    var legacyParticipants: seq<Doc>

    ghost predicate Valid()
      reads this
    {
      Keyed(meetings) && Keyed(research)
    }

    constructor (meetings: seq<Doc>, research: seq<Doc>, legacyParticipants: seq<Doc>)
      requires Keyed(meetings) && Keyed(research)
      ensures Valid()
      ensures this.meetings == meetings && this.research == research
      ensures this.legacyParticipants == legacyParticipants
    {
      this.meetings := meetings;
      this.research := research;
      this.legacyParticipants := legacyParticipants;
    }
  }
}
