/**
 * `exportPdf`: the meeting report as the sequence of text blocks it draws, in order.
 * Fonts, sizes, colours and spacing are not modelled; what is modelled is which blocks
 * appear, with which text, in which order, and when the request fails instead.
 */
module ExportController {
  import opened Wrappers
  import opened Bson
  import opened Js
  import opened Query
  import opened Database
  import AudioMeeting
  import ParticipantResearch

  /** One drawn element of the report. */
  datatype Block =
    | Title(text: string)             // the centred report title
    | Caption(text: string)           // a centred line under the title
    | DateCaption(stamp: Option<Value>) // `Date: ${new Date(v).toLocaleString()}`; the locale rendering is left abstract
    | Section(text: string)           // a section heading
    | Heading(text: string)           // a group heading or a participant's name line
    | Bullet(text: string)            // a `• ${item}` line
    | Strong(text: string)            // an action item's `Task: ...` line
    | Note(text: string)              // an italic line: owner and deadline, or company
    | Body(text: string)              // running text
    | Rule                            // the separator under a participant
    | NewPage

  /** What the handler answers: the PDF of the blocks, or a JSON error. */
  datatype Outcome =
    | Report(filename: string, blocks: seq<Block>)
    | Error(status: int, message: string)

  const MeetingNotFound := "Meeting not found"
  const ExportFailure := "Failed to generate PDF"
  const NoTranscript := "No transcript available."

  // Markdown bold removal: `replace(/\*\*(.*?)\*\*/g, '$1')` on a participant's research text.

  /**
   * The lazy `(.*?)\*\*` from position `i` of `t`: the position of the first "**" reached
   * before any line terminator, or -1.
   */
  function CloseFrom(t: string, i: nat): (k: int)
    requires i <= |t|
    ensures k == -1 || (i <= k && k + 2 <= |t|)
    ensures k >= 0 ==> t[k] == '*' && t[k + 1] == '*'
    ensures k >= 0 ==> forall j :: i <= j < k ==> !IsLineTerminator(t[j]) && !(t[j] == '*' && t[j + 1] == '*')
    decreases |t| - i
  {
    if |t| - i < 2 then -1
    else if t[i] == '*' && t[i + 1] == '*' then i
    else if IsLineTerminator(t[i]) then -1
    else CloseFrom(t, i + 1)
  }

  /** The scan does not miss a "**": one that no line terminator precedes is found, at it or earlier. */
  lemma {:induction false} CloseFromComplete(t: string, i: nat, j: nat)
    requires i <= j && j + 1 < |t| && t[j] == '*' && t[j + 1] == '*'
    requires forall l :: i <= l < j ==> !IsLineTerminator(t[l])
    ensures 0 <= CloseFrom(t, i) <= j
    decreases j - i
  {
    if i < j && !(t[i] == '*' && t[i + 1] == '*') {
      CloseFromComplete(t, i + 1, j);
    }
  }

  /** The lazy match after an opening "**": where in `t` the closing "**" starts, or -1. */
  function CloseAt(t: string): (k: int)
    ensures -1 <= k && (k >= 0 ==> k + 2 <= |t|)
    ensures k >= 0 ==> t[k] == '*' && t[k + 1] == '*'
    ensures k >= 0 ==> forall j :: 0 <= j < k ==> !IsLineTerminator(t[j]) && !(t[j] == '*' && t[j + 1] == '*')
  {
    CloseFrom(t, 0)
  }

  /**
   * The closing "**" is found whenever one lies on the first line, so -1 means the line
   * has none; single asterisks before it do not stop the match.
   */
  lemma {:induction false} CloseAtComplete(t: string, j: nat)
    requires j + 1 < |t| && t[j] == '*' && t[j + 1] == '*'
    requires forall l :: 0 <= l < j ==> !IsLineTerminator(t[l])
    ensures 0 <= CloseAt(t) <= j
  {
    CloseFromComplete(t, 0, j);
  }

  /** A span holding a single asterisk still loses its delimiters: "**a*b**" becomes "a*b". */
  lemma {:induction false} StripBoldInnerStar()
    ensures StripBold("**a*b**") == "a*b"
  {
    var t := "a*b**";
    CloseAtComplete(t, 3);
    assert CloseAt(t) == 3;
    assert "**a*b**"[2..] == t && t[..3] == "a*b" && "**a*b**"[7..] == [];
  }

  /** Every "**"-delimited span on a single line loses its delimiters, scanning left to right. */
  function StripBold(s: string): string
    decreases |s|
  {
    if |s| < 2 then s
    else if s[0] == '*' && s[1] == '*' && CloseAt(s[2..]) >= 0 then
      var k := CloseAt(s[2..]);
      s[2..2 + k] + StripBold(s[4 + k..])
    else [s[0]] + StripBold(s[1..])
  }

  /** The characters of `s` other than '*', in order. */
  function NonStars(s: string): (r: string)
    ensures '*' !in r
  {
    if s == [] then [] else (if s[0] == '*' then [] else [s[0]]) + NonStars(s[1..])
  }

  lemma {:induction false} NonStarsAppend(a: string, b: string)
    ensures NonStars(a + b) == NonStars(a) + NonStars(b)
  {
    if a == [] {
      assert a + b == b;
    } else {
      assert (a + b)[0] == a[0] && (a + b)[1..] == a[1..] + b;
      NonStarsAppend(a[1..], b);
      assert NonStars(a + b) == (if a[0] == '*' then [] else [a[0]]) + NonStars(a[1..] + b);
    }
  }

  /** Text without a "**" pair comes back unchanged. */
  lemma {:induction false} StripBoldNoMarkers(s: string)
    requires forall i :: 0 <= i < |s| - 1 ==> !(s[i] == '*' && s[i + 1] == '*')
    ensures StripBold(s) == s
  {
    if |s| >= 2 {
      StripBoldNoMarkers(s[1..]);
      assert s == [s[0]] + s[1..];
    }
  }

  /** Only asterisks are removed: every other character survives, in order, and nothing is added. */
  lemma {:induction false} StripBoldOnlyAsterisks(s: string)
    ensures NonStars(StripBold(s)) == NonStars(s)
    ensures |StripBold(s)| <= |s|
    decreases |s|
  {
    if |s| >= 2 {
      if s[0] == '*' && s[1] == '*' && CloseAt(s[2..]) >= 0 {
        var k := CloseAt(s[2..]);
        StripBoldOnlyAsterisks(s[4 + k..]);
        PairRemovesStars(s, k);
        NonStarsAppend(s[2..2 + k], StripBold(s[4 + k..]));
      } else {
        StripBoldOnlyAsterisks(s[1..]);
        NonStarsAppend([s[0]], StripBold(s[1..]));
        assert s == [s[0]] + s[1..];
        NonStarsAppend([s[0]], s[1..]);
      }
    }
  }

  lemma {:induction false} NonStarsDropPair(t: string)
    ensures NonStars("**" + t) == NonStars(t)
  {
    var s := "**" + t;
    assert s[0] == '*' && s[1..] == "*" + t;
    var r := "*" + t;
    assert r[0] == '*' && r[1..] == t;
  }

  lemma {:induction false} PairRemovesStars(s: string, k: nat)
    requires 4 + k <= |s| && s[0] == '*' && s[1] == '*' && s[2 + k] == '*' && s[3 + k] == '*'
    ensures NonStars(s) == NonStars(s[2..2 + k]) + NonStars(s[4 + k..])
  {
    var m, tail := s[2..2 + k], s[4 + k..];
    var u := "**" + tail;
    assert s == "**" + (m + u) by {
      assert s[2 + k..] == u by {
        assert s[2 + k..] == s[2 + k..4 + k] + tail;
        assert s[2 + k..4 + k] == "**";
      }
      assert s[2..] == m + s[2 + k..];
      assert s == s[..2] + s[2..] && s[..2] == "**";
    }
    calc {
      NonStars(s);
      { NonStarsDropPair(m + u); }
      NonStars(m + u);
      { NonStarsAppend(m, u); }
      NonStars(m) + NonStars(u);
      { NonStarsDropPair(tail); }
      NonStars(m) + NonStars(tail);
    }
  }

  /** A character other than '*' never opens a pair and is kept. */
  lemma {:induction false} StripBoldCons(c: char, t: string)
    requires c != '*'
    ensures StripBold([c] + t) == [c] + StripBold(t)
  {
    var s := [c] + t;
    if |s| < 2 {
      assert t == [];
    } else {
      assert s[0] == c && s[1..] == t;
    }
  }

  /** Text without asterisks passes through untouched. */
  lemma {:induction false} StripBoldNoStarPrefix(x: string, rest: string)
    requires '*' !in x
    ensures StripBold(x + rest) == x + StripBold(rest)
    decreases |x|
  {
    if x == [] {
      assert x + rest == rest;
    } else {
      var c, y := x[0], x[1..];
      assert x == [c] + y;
      assert '*' !in y by {
        assert forall j :: 0 <= j < |y| ==> y[j] == x[j + 1];
      }
      assert x + rest == [c] + (y + rest);
      StripBoldCons(c, y + rest);
      StripBoldNoStarPrefix(y, rest);
    }
  }

  /** A lone '*' before another character is kept. */
  lemma {:induction false} LoneStar(y: string)
    requires y != [] && y[0] != '*'
    ensures StripBold("*" + y) == "*" + StripBold(y)
  {
    var s := "*" + y;
    assert s[0] == '*' && s[1] == y[0] && s[1..] == y;
  }

  /** Delimiters on different lines are not a pair: the opening "**" and the line are kept. */
  lemma {:induction false} StripBoldNotAcrossLines(x: string, rest: string)
    requires '*' !in x && forall i :: 0 <= i < |x| ==> !IsLineTerminator(x[i])
    ensures StripBold("**" + x + "\n" + rest) == "**" + x + "\n" + StripBold(rest)
  {
    var line := x + "\n";
    var y := line + rest;
    var s := "**" + x + "\n" + rest;
    assert s == "*" + ("*" + y);
    assert s[2..] == x + "\n" + rest;
    CloseAtLineBreak(x, rest);
    assert StripBold(s) == "*" + StripBold("*" + y);
    assert y[0] != '*' by {
      if x == [] { assert y[0] == '\n'; } else { assert y[0] == x[0]; }
    }
    LoneStar(y);
    StripBoldNoStarPrefix(line, rest);
  }

  lemma {:induction false} CloseAtLineBreak(x: string, rest: string)
    requires '*' !in x && forall i :: 0 <= i < |x| ==> !IsLineTerminator(x[i])
    ensures CloseAt(x + "\n" + rest) == -1
  {
    CloseFromLineBreak(x, rest, 0);
  }

  lemma {:induction false} CloseFromLineBreak(x: string, rest: string, i: nat)
    requires '*' !in x && forall i :: 0 <= i < |x| ==> !IsLineTerminator(x[i])
    requires i <= |x|
    ensures CloseFrom(x + "\n" + rest, i) == -1
    decreases |x| - i
  {
    var t := x + "\n" + rest;
    if i < |x| {
      assert t[i] == x[i];
      CloseFromLineBreak(x, rest, i + 1);
    } else {
      assert t[i] == '\n';
    }
  }

  lemma {:induction false} CloseFromSpan(x: string, rest: string, i: nat)
    requires '*' !in x && forall i :: 0 <= i < |x| ==> !IsLineTerminator(x[i])
    requires i <= |x|
    ensures CloseFrom(x + "**" + rest, i) == |x|
    decreases |x| - i
  {
    var t := x + "**" + rest;
    if i < |x| {
      assert t[i] == x[i];
      CloseFromSpan(x, rest, i + 1);
    } else {
      assert t[i] == '*' && t[i + 1] == '*';
    }
  }

  /** A "**"-delimited span on one line loses its delimiters and keeps its text. */
  lemma {:induction false} StripBoldSpan(x: string, rest: string)
    requires '*' !in x && forall i :: 0 <= i < |x| ==> !IsLineTerminator(x[i])
    ensures StripBold("**" + x + "**" + rest) == x + StripBold(rest)
  {
    var s := "**" + x + "**" + rest;
    assert s[2..] == x + "**" + rest;
    CloseFromSpan(x, rest, 0);
    assert s[0] == '*' && s[1] == '*';
    assert s[2..2 + |x|] == x && s[4 + |x|..] == rest;
  }

  // The executive summary.

  /** A partly drawn section: the blocks drawn so far, and whether a TypeError cut it short. */
  datatype Walk = Walk(blocks: seq<Block>, threw: bool)

  /** `w2` drawn after `w1`, unless `w1` threw. */
  function Then(w1: Walk, w2: Walk): (r: Walk)
    ensures w1.threw ==> r == w1
    ensures !w1.threw ==> r.blocks == w1.blocks + w2.blocks && r.threw == w2.threw
  {
    if w1.threw then w1 else Walk(w1.blocks + w2.blocks, w2.threw)
  }

  /** Drawing is sequential: what `w1` drew stays in front, and the result threw when either part did. */
  lemma {:induction false} ThenPrefix(w1: Walk, w2: Walk)
    ensures w1.blocks <= Then(w1, w2).blocks
    ensures Then(w1, w2).threw == (w1.threw || w2.threw)
  {
  }

  /** Grouping the steps of the summary walk differently draws the same report. */
  lemma {:induction false} ThenAssoc(w1: Walk, w2: Walk, w3: Walk)
    ensures Then(Then(w1, w2), w3) == Then(w1, Then(w2, w3))
  {
    if !w1.threw && !w2.threw {
      assert (w1.blocks + w2.blocks) + w3.blocks == w1.blocks + (w2.blocks + w3.blocks);
    }
  }

  /** `Number(String(v))` of a one-element array's element, when that gives a positive number. */
  predicate PositiveElement(v: Value) {
    match v
    case Num(n) => n > 0
    case Arr(items) => |items| == 1 && PositiveElement(items[0])
    case _ => false
  }

  /**
   * `x > 0` for a `length` property of any JSON value: a boolean counts as 0 or 1, and an
   * array converts through its string form, so only a one-element array can be positive.
   */
  predicate PositiveLength(v: Value) {
    match v
    case Num(n) => n > 0
    case Bool(b) => b
    case Arr(items) => |items| == 1 && PositiveElement(items[0])
    case Date(t) => t > 0
    case _ => false
  }

  /** `v && v.length > 0`: a non-empty array or string, or an object whose `length` converts to a positive number. */
  predicate NonEmpty(v: Option<Value>) {
    && Defined(v)
    && match v.value
       case Arr(items) => |items| > 0
       case Str(s) => |s| > 0
       case Obj(f) => "length" in f && PositiveLength(f["length"])
       case _ => false
  }

  /** The `• ${item}` lines of a list. */
  function Bullets(items: seq<Value>): (r: seq<Block>)
    ensures |r| == |items| && forall i :: 0 <= i < |items| ==> r[i] == Bullet(Show(items[i]))
  {
    seq(|items|, i requires 0 <= i < |items| => Bullet(Show(items[i])))
  }

  /** Bullets are drawn item by item: the lines of two lists are the lines of each, one after the other. */
  lemma {:induction false} BulletsAppend(a: seq<Value>, b: seq<Value>)
    ensures Bullets(a + b) == Bullets(a) + Bullets(b)
  {
  }

  /**
   * One of the outcomes, risks or next-steps groups: nothing when the list is missing or
   * empty, else its heading and one bullet per item; `forEach` on a non-array throws
   * right after the heading.
   */
  function Group(v: Option<Value>, heading: string): Walk {
    if !NonEmpty(v) then Walk([], false)
    else if v.value.Arr? then Walk([Heading(heading)] + Bullets(v.value.items), false)
    else Walk([Heading(heading)], true)
  }

  /**
   * A list given as an object whose `length` is `true` or a one-element array holding a
   * positive number passes the check, so its heading is drawn and `forEach` then throws.
   */
  lemma {:induction false} ConvertedLengthThrows(f: map<string, Value>, heading: string)
    requires "length" in f && (f["length"] == Bool(true) || (f["length"].Arr? && |f["length"].items| == 1 && f["length"].items[0].Num? && f["length"].items[0].n > 0))
    ensures Group(Some(Obj(f)), heading) == Walk([Heading(heading)], true)
  {
    assert PositiveLength(f["length"]) by {
      if f["length"] != Bool(true) {
        assert PositiveElement(f["length"].items[0]);
      }
    }
  }

  /** The owner and deadline line of an action item. */
  function MetaLine(owner: Option<Value>, deadline: Option<Value>): string {
    (if Defined(owner) then "Owner: " + Show(owner.value) else "")
    + " "
    + (if Defined(deadline) then "| Deadline: " + Show(deadline.value) else "")
  }

  /** One action item: its task line, and the owner and deadline line when either is set. */
  function ItemBlocks(a: Value): seq<Block>
    requires a != Null
  {
    var owner, deadline := Prop(a, "owner"), Prop(a, "deadline");
    [Strong("Task: " + ShowOpt(Prop(a, "task")))]
    + (if Defined(owner) || Defined(deadline) then [Note(MetaLine(owner, deadline))] else [])
  }

  /** The blocks of a run of non-null action items, in order. */
  function ItemsBlocks(items: seq<Value>): seq<Block>
    requires Null !in items
  {
    if items == [] then []
    else ItemsBlocks(items[..|items| - 1]) + ItemBlocks(items[|items| - 1])
  }

  /** The position of the first null at or after `i`, or the length. */
  function NullFrom(items: seq<Value>, i: nat): (k: nat)
    requires i <= |items|
    ensures i <= k <= |items|
    ensures forall j :: i <= j < k ==> items[j] != Null
    ensures k < |items| ==> items[k] == Null
    decreases |items| - i
  {
    if i == |items| || items[i] == Null then i else NullFrom(items, i + 1)
  }

  /** The position of the first null in `items`, or its length. */
  function FirstNull(items: seq<Value>): (k: nat)
    ensures k <= |items| && Null !in items[..k]
    ensures k < |items| ==> items[k] == Null
  {
    var k := NullFrom(items, 0);
    assert forall j :: 0 <= j < k ==> items[..k][j] == items[j];
    k
  }

  /** The action-items group: reading `task` of a null item throws, after the items before it. */
  function Actions(v: Option<Value>): Walk {
    if !NonEmpty(v) then Walk([], false)
    else if v.value.Arr? then
      var k := FirstNull(v.value.items);
      Walk([Heading("Action Items")] + ItemsBlocks(v.value.items[..k]), k < |v.value.items|)
    else Walk([Heading("Action Items")], true)
  }

  /**
   * The four groups of a parsed summary, in order; `decisions` is never drawn. A summary
   * that is not a string is used as it is; a string goes through `JSON.parse`, whose
   * failure throws, and so does reading a property of null or undefined.
   */
  function SummaryWalk(summary: Option<Value>, parse: string -> Option<Value>): Walk {
    var s := if summary.Some? && summary.value.Str? then parse(summary.value.s) else summary;
    if s.None? || s.value == Null then Walk([], true)
    else
      var v := s.value;
      Then(Then(Then(
        Group(Prop(v, "outcomes"), "Key Outcomes"),
        Group(Prop(v, "risks"), "Risks & Open Questions")),
        Group(Prop(v, "nextSteps"), "Next Steps")),
        Actions(Prop(v, "actionItems")))
  }

  /** `doc.text(meeting.summary)`: the stored summary as text, empty when null or undefined. */
  function Fallback(summary: Option<Value>): string {
    if summary.None? || summary.value == Null then "" else Show(summary.value)
  }

  /** The summary section: its heading, the groups, and after a throw the raw summary. */
  function SummarySection(summary: Option<Value>, parse: string -> Option<Value>): seq<Block> {
    var w := SummaryWalk(summary, parse);
    [Section("Executive Summary")] + w.blocks + (if w.threw then [Body(Fallback(summary))] else [])
  }

  // Participants and transcript.

  /** A participant whose research can be drawn: `researchData.replace` exists only on strings. */
  predicate HasResearchText(p: Doc) {
    "researchData" in p && p["researchData"].Str?
  }

  /** One participant: name and email, the company when set, the research without bold markers, a rule. */
  function ParticipantBlocks(p: Doc): seq<Block>
    requires HasResearchText(p)
  {
    var name := Field(p, "name");
    [Heading((if Defined(name) then Show(name.value) else "Unknown") + " (" + ShowOpt(Field(p, "email")) + ")")]
    + (if Defined(Field(p, "company")) then [Note("Company: " + Show(p["company"]))] else [])
    + [Body(StripBold(p["researchData"].s)), Rule]
  }

  function ParticipantsBlocks(ps: seq<Doc>): seq<Block>
    requires forall i :: 0 <= i < |ps| ==> HasResearchText(ps[i])
  {
    if ps == [] then []
    else ParticipantsBlocks(ps[..|ps| - 1]) + ParticipantBlocks(ps[|ps| - 1])
  }

  /** The participant pages: nothing for a meeting without participants. */
  function ParticipantSection(ps: seq<Doc>): seq<Block>
    requires forall i :: 0 <= i < |ps| ==> HasResearchText(ps[i])
  {
    if ps == [] then [] else [NewPage, Section("Participant Intelligence")] + ParticipantsBlocks(ps)
  }

  /** `meeting.transcript || "No transcript available."`. */
  function TranscriptText(t: Option<Value>): string {
    if Defined(t) then Show(t.value) else NoTranscript
  }

  function Header(m: Doc): seq<Block> {
    [Title("Meeting Intelligence Report"),
     Caption("File: " + ShowOpt(Field(m, "filename"))),
     DateCaption(Field(m, "timestamp"))]
  }

  function TranscriptSection(m: Doc): seq<Block> {
    [NewPage, Section("Full Transcript"), Body(TranscriptText(Field(m, "transcript")))]
  }

  /** The whole report, top to bottom. */
  function ReportBlocks(m: Doc, ps: seq<Doc>, parse: string -> Option<Value>): seq<Block>
    requires forall i :: 0 <= i < |ps| ==> HasResearchText(ps[i])
  {
    Header(m) + SummarySection(Field(m, "summary"), parse) + ParticipantSection(ps) + TranscriptSection(m)
  }

  // The handler.

  /** The meeting: by ObjectId first, else by the legacy `meetingId` string. */
  function Lookup(meetings: seq<Doc>, meetingId: string): Option<Doc> {
    var m := AudioMeeting.FindById(meetings, Str(meetingId));
    if m.Some? then m else FindOne(meetings, "meetingId", Str(meetingId))
  }

  /** `meeting._id` (undefined, queried as null, when absent). */
  function IdOf(m: Doc): Value {
    if "_id" in m then m["_id"] else Null
  }

  /** The participants: research records of the meeting's `_id`, else legacy records of the requested id. */
  function Participants(research: seq<Doc>, legacy: seq<Doc>, m: Doc, meetingId: string): seq<Doc> {
    var ps := ParticipantResearch.FindByMeetingId(research, IdOf(m));
    if |ps| == 0 then Find(legacy, "meetingId", [Str(meetingId)]) else ps
  }

  /** `exportPdf` as a whole: 404, 500, or the report under its file name. */
  /** The characters Node's `setHeader` accepts in a header value: tab, printable ASCII and 0x80-0xFF. */
  predicate HeaderChar(c: char) {
    c == '\t' || (' ' <= c <= '~') || ('\U{0080}' <= c <= '\U{00FF}')
  }

  /** A header value `setHeader` sets without throwing `ERR_INVALID_CHAR`. */
  predicate HeaderSafe(v: string) {
    forall i :: 0 <= i < |v| ==> HeaderChar(v[i])
  }

  /** The name of the report file, as the `Content-disposition` header carries it. */
  function FileName(meetingId: string): string {
    "Meeting_Summary_" + meetingId + ".pdf"
  }

  /** The header value is accepted exactly when the meeting id is: the rest of it is plain ASCII. */
  lemma {:induction false} FileNameSafe(meetingId: string)
    ensures HeaderSafe(FileName(meetingId)) <==> HeaderSafe(meetingId)
  {
    var fn := FileName(meetingId);
    if HeaderSafe(fn) {
      forall i | 0 <= i < |meetingId| ensures HeaderChar(meetingId[i]) {
        assert meetingId[i] == fn[16 + i];
      }
    }
  }

  function Export(meetings: seq<Doc>, research: seq<Doc>, legacy: seq<Doc>, meetingId: string,
                  parse: string -> Option<Value>): Outcome
  {
    match Lookup(meetings, meetingId)
    case None => Error(404, MeetingNotFound)
    case Some(m) =>
      var ps := Participants(research, legacy, m, meetingId);
      if !HeaderSafe(FileName(meetingId)) then Error(500, ExportFailure)
      else if forall i :: 0 <= i < |ps| ==> HasResearchText(ps[i]) then
        Report(FileName(meetingId), ReportBlocks(m, ps, parse))
      else Error(500, ExportFailure)
  }

  lemma {:induction false} FirstNullUnique(items: seq<Value>, i: nat)
    requires i <= |items| && Null !in items[..i] && (i < |items| ==> items[i] == Null)
    ensures i == FirstNull(items)
  {
  }

  lemma {:induction false} ItemsBlocksSnoc(items: seq<Value>, i: nat)
    requires i < |items| && Null !in items[..i + 1]
    ensures ItemsBlocks(items[..i + 1]) == ItemsBlocks(items[..i]) + ItemBlocks(items[i])
  {
    assert items[..i + 1][..i] == items[..i];
    assert items[..i + 1][i] == items[i];
  }

  /** Draws one list group, item by item. */
  method DrawGroup(v: Option<Value>, heading: string) returns (w: Walk)
    ensures w == Group(v, heading)
  {
    if !NonEmpty(v) {
      return Walk([], false);
    }
    if !v.value.Arr? {
      return Walk([Heading(heading)], true);
    }
    var items := v.value.items;
    var blocks := [Heading(heading)];
    var i := 0;
    while i < |items|
      invariant 0 <= i <= |items|
      invariant blocks == [Heading(heading)] + Bullets(items[..i])
    {
      blocks := blocks + [Bullet(Show(items[i]))];
      i := i + 1;
    }
    assert items[..i] == items;
    w := Walk(blocks, false);
  }

  /** Draws one action item that is not null. */
  method DrawItem(a: Value) returns (drawn: seq<Block>)
    requires a != Null
    ensures drawn == ItemBlocks(a)
  {
    var owner, deadline := Prop(a, "owner"), Prop(a, "deadline");
    drawn := [Strong("Task: " + ShowOpt(Prop(a, "task")))];
    if Defined(owner) || Defined(deadline) {
      drawn := drawn + [Note(MetaLine(owner, deadline))];
    }
  }

  /** Draws the action items until the end or the first null one. */
  method DrawActions(v: Option<Value>) returns (w: Walk)
    ensures w == Actions(v)
  {
    if !NonEmpty(v) {
      return Walk([], false);
    }
    if !v.value.Arr? {
      return Walk([Heading("Action Items")], true);
    }
    var items := v.value.items;
    var blocks := [Heading("Action Items")];
    var i := 0;
    while i < |items| && items[i] != Null
      invariant 0 <= i <= |items| && Null !in items[..i]
      invariant blocks == [Heading("Action Items")] + ItemsBlocks(items[..i])
    {
      var drawn := DrawItem(items[i]);
      ItemsBlocksSnoc(items, i);
      blocks := blocks + drawn;
      i := i + 1;
    }
    FirstNullUnique(items, i);
    w := Walk(blocks, i < |items|);
  }

  lemma {:induction false} ParticipantsBlocksSnoc(ps: seq<Doc>, i: nat)
    requires i < |ps| && forall j :: 0 <= j <= i ==> HasResearchText(ps[j])
    ensures ParticipantsBlocks(ps[..i + 1]) == ParticipantsBlocks(ps[..i]) + ParticipantBlocks(ps[i])
  {
    assert ps[..i + 1][..i] == ps[..i];
    assert ps[..i + 1][i] == ps[i];
  }

  /** Draws one participant with research text. */
  method DrawParticipant(p: Doc) returns (drawn: seq<Block>)
    requires HasResearchText(p)
    ensures drawn == ParticipantBlocks(p)
  {
    var name := Field(p, "name");
    drawn := [Heading((if Defined(name) then Show(name.value) else "Unknown") + " (" + ShowOpt(Field(p, "email")) + ")")];
    if Defined(Field(p, "company")) {
      drawn := drawn + [Note("Company: " + Show(p["company"]))];
    }
    drawn := drawn + [Body(StripBold(p["researchData"].s)), Rule];
  }

  /** Draws the participants; false when one has no research text, where `replace` throws. */
  method DrawParticipants(ps: seq<Doc>) returns (blocks: seq<Block>, ok: bool)
    ensures ok <==> forall i :: 0 <= i < |ps| ==> HasResearchText(ps[i])
    ensures ok ==> blocks == ParticipantsBlocks(ps)
  {
    blocks := [];
    var i := 0;
    while i < |ps|
      invariant 0 <= i <= |ps|
      invariant forall j :: 0 <= j < i ==> HasResearchText(ps[j])
      invariant blocks == ParticipantsBlocks(ps[..i])
    {
      var p := ps[i];
      if !("researchData" in p && p["researchData"].Str?) {
        return blocks, false;
      }
      var drawn := DrawParticipant(p);
      ParticipantsBlocksSnoc(ps, i);
      blocks := blocks + drawn;
      i := i + 1;
    }
    assert ps[..i] == ps;
    ok := true;
  }

  /** Draws the summary groups in order, stopping at the first throw. */
  method DrawSummary(summary: Option<Value>, parse: string -> Option<Value>) returns (w: Walk)
    ensures w == SummaryWalk(summary, parse)
  {
    var s := if summary.Some? && summary.value.Str? then parse(summary.value.s) else summary;
    if s.None? || s.value == Null {
      return Walk([], true);
    }
    w := DrawGroup(Prop(s.value, "outcomes"), "Key Outcomes");
    if !w.threw {
      var g := DrawGroup(Prop(s.value, "risks"), "Risks & Open Questions");
      w := Walk(w.blocks + g.blocks, g.threw);
    }
    if !w.threw {
      var g := DrawGroup(Prop(s.value, "nextSteps"), "Next Steps");
      w := Walk(w.blocks + g.blocks, g.threw);
    }
    if !w.threw {
      var g := DrawActions(Prop(s.value, "actionItems"));
      w := Walk(w.blocks + g.blocks, g.threw);
    }
  }

  /** Draws the header and the executive summary, with the raw summary after a throw. */
  method DrawFirstPage(m: Doc, parse: string -> Option<Value>) returns (doc: seq<Block>)
    ensures doc == Header(m) + SummarySection(Field(m, "summary"), parse)
  {
    var summary := Field(m, "summary");
    var w := DrawSummary(summary, parse);
    var section := [Section("Executive Summary")] + w.blocks;
    if w.threw {
      section := section + [Body(Fallback(summary))];
    }
    doc := Header(m) + section;
  }

  /** `exportPdf(req, res)` for `req.params.meetingId`. */
  method ExportPdf(db: Db, meetingId: string, parse: string -> Option<Value>) returns (out: Outcome)
    ensures out == Export(db.meetings, db.research, db.legacyParticipants, meetingId, parse)
  {
    var meeting := Lookup(db.meetings, meetingId);
    if meeting.None? {
      return Error(404, MeetingNotFound);
    }
    var m := meeting.value;
    var ps := Participants(db.research, db.legacyParticipants, m, meetingId);
    var filename := "Meeting_Summary_" + meetingId + ".pdf";
    if !HeaderSafe(filename) {
      return Error(500, ExportFailure);
    }
    var doc := DrawFirstPage(m, parse);
    var drawn, ok := DrawParticipants(ps);
    if !ok {
      return Error(500, ExportFailure);
    }
    if |ps| > 0 {
      doc := doc + [NewPage, Section("Participant Intelligence")] + drawn;
    }
    assert doc == Header(m) + SummarySection(Field(m, "summary"), parse) + ParticipantSection(ps);
    doc := doc + TranscriptSection(m);
    out := Report(filename, doc);
  }

  // What the report promises.

  /** No block of `bs` is a section heading. */
  predicate NoSection(bs: seq<Block>) {
    forall i :: 0 <= i < |bs| ==> !bs[i].Section?
  }

  /** No block of `bs` is a participant separator. */
  predicate NoRule(bs: seq<Block>) {
    forall i :: 0 <= i < |bs| ==> bs[i] != Rule
  }

  /** The number of participant separators in `bs`. */
  function Rules(bs: seq<Block>): nat {
    if bs == [] then 0 else Rules(bs[..|bs| - 1]) + (if bs[|bs| - 1] == Rule then 1 else 0)
  }

  lemma {:induction false} RulesAppend(a: seq<Block>, b: seq<Block>)
    ensures Rules(a + b) == Rules(a) + Rules(b)
    decreases |b|
  {
    if b == [] {
      assert a + b == a;
    } else {
      assert (a + b)[..|a + b| - 1] == a + b[..|b| - 1];
      RulesAppend(a, b[..|b| - 1]);
    }
  }

  lemma {:induction false} NoRuleCount(bs: seq<Block>)
    requires NoRule(bs)
    ensures Rules(bs) == 0
  {
    if bs != [] {
      NoRuleCount(bs[..|bs| - 1]);
    }
  }

  /** The texts of the `Task: ...` lines of `bs`, in order. */
  function Tasks(bs: seq<Block>): seq<string> {
    if bs == [] then []
    else Tasks(bs[..|bs| - 1]) + (if bs[|bs| - 1].Strong? then [bs[|bs| - 1].text] else [])
  }

  lemma {:induction false} TasksAppend(a: seq<Block>, b: seq<Block>)
    ensures Tasks(a + b) == Tasks(a) + Tasks(b)
    decreases |b|
  {
    if b == [] {
      assert a + b == a;
    } else {
      assert (a + b)[..|a + b| - 1] == a + b[..|b| - 1];
      TasksAppend(a, b[..|b| - 1]);
    }
  }

  /** The task line each action item should get. */
  function TaskLines(items: seq<Value>): (r: seq<string>)
    requires Null !in items
    ensures |r| == |items|
  {
    seq(|items|, i requires 0 <= i < |items| => "Task: " + ShowOpt(Prop(items[i], "task")))
  }

  lemma {:induction false} OneItemDrawn(a: Value)
    requires a != Null
    ensures Tasks(ItemBlocks(a)) == ["Task: " + ShowOpt(Prop(a, "task"))]
    ensures NoSection(ItemBlocks(a)) && NoRule(ItemBlocks(a))
  {
    var one := ItemBlocks(a);
    var first := Strong("Task: " + ShowOpt(Prop(a, "task")));
    assert [first][..0] == [];
    assert Tasks([first]) == [first.text];
    if |one| == 2 {
      assert one[..1] == [first];
      assert !one[1].Strong? && one[1] != Rule;
    } else {
      assert one == [first];
    }
  }

  /** Action items draw one task line each, in order. */
  lemma {:induction false} ActionItemsDrawn(items: seq<Value>)
    requires Null !in items
    ensures Tasks(ItemsBlocks(items)) == TaskLines(items)
  {
    if items != [] {
      var init, a := items[..|items| - 1], items[|items| - 1];
      assert a in items;
      ActionItemsDrawn(init);
      OneItemDrawn(a);
      assert ItemsBlocks(items) == ItemsBlocks(init) + ItemBlocks(a);
      TasksAppend(ItemsBlocks(init), ItemBlocks(a));
      TaskLinesSnoc(items);
    }
  }

  lemma {:induction false} TaskLinesSnoc(items: seq<Value>)
    requires items != [] && Null !in items
    ensures TaskLines(items) == TaskLines(items[..|items| - 1]) + ["Task: " + ShowOpt(Prop(items[|items| - 1], "task"))]
  {
    var init := items[..|items| - 1];
    forall i | 0 <= i < |init| ensures TaskLines(items)[i] == TaskLines(init)[i] {
      assert init[i] == items[i];
    }
  }

  /** Action items draw no section heading and no separator. */
  lemma {:induction false} ActionItemsPlain(items: seq<Value>)
    requires Null !in items
    ensures NoSection(ItemsBlocks(items)) && NoRule(ItemsBlocks(items))
  {
    if items != [] {
      var init, a := items[..|items| - 1], items[|items| - 1];
      assert a in items;
      ActionItemsPlain(init);
      OneItemDrawn(a);
    }
  }

  /** The summary's groups draw no section heading and no separator. */
  lemma {:induction false} SummaryWalkPlain(summary: Option<Value>, parse: string -> Option<Value>)
    ensures NoSection(SummaryWalk(summary, parse).blocks) && NoRule(SummaryWalk(summary, parse).blocks)
  {
    var s := if summary.Some? && summary.value.Str? then parse(summary.value.s) else summary;
    if s.Some? && s.value != Null {
      var v := s.value;
      var g1, g2, g3 := Group(Prop(v, "outcomes"), "Key Outcomes"), Group(Prop(v, "risks"), "Risks & Open Questions"),
        Group(Prop(v, "nextSteps"), "Next Steps");
      var g4 := Actions(Prop(v, "actionItems"));
      GroupPlain(Prop(v, "outcomes"), "Key Outcomes");
      GroupPlain(Prop(v, "risks"), "Risks & Open Questions");
      GroupPlain(Prop(v, "nextSteps"), "Next Steps");
      var av := Prop(v, "actionItems");
      if NonEmpty(av) && av.value.Arr? {
        ActionItemsPlain(av.value.items[..FirstNull(av.value.items)]);
      }
      ThenPlain(g1, g2);
      ThenPlain(Then(g1, g2), g3);
      ThenPlain(Then(Then(g1, g2), g3), g4);
    }
  }

  lemma {:induction false} GroupPlain(v: Option<Value>, heading: string)
    ensures NoSection(Group(v, heading).blocks) && NoRule(Group(v, heading).blocks)
  {
  }

  lemma {:induction false} ThenPlain(w1: Walk, w2: Walk)
    requires NoSection(w1.blocks) && NoRule(w1.blocks)
    requires NoSection(w2.blocks) && NoRule(w2.blocks)
    ensures NoSection(Then(w1, w2).blocks) && NoRule(Then(w1, w2).blocks)
  {
  }

  /** One participant draws one separator and no section heading. */
  lemma {:induction false} ParticipantPlain(p: Doc)
    requires HasResearchText(p)
    ensures Rules(ParticipantBlocks(p)) == 1 && NoSection(ParticipantBlocks(p))
  {
    var one := ParticipantBlocks(p);
    NoRuleCount(one[..|one| - 1]);
    assert one[|one| - 1] == Rule;
  }

  /** Each participant draws exactly one separator, and no participant draws a section heading. */
  lemma {:induction false} ParticipantsDrawn(ps: seq<Doc>)
    requires forall i :: 0 <= i < |ps| ==> HasResearchText(ps[i])
    ensures Rules(ParticipantsBlocks(ps)) == |ps| && NoSection(ParticipantsBlocks(ps))
  {
    if ps != [] {
      var init, p := ps[..|ps| - 1], ps[|ps| - 1];
      ParticipantsDrawn(init);
      var a, one := ParticipantsBlocks(init), ParticipantBlocks(p);
      assert ParticipantsBlocks(ps) == a + one;
      ParticipantPlain(p);
      RulesAppend(a, one);
      NoSectionAppend(a, one);
    }
  }

  lemma {:induction false} NoSectionAppend(a: seq<Block>, b: seq<Block>)
    requires NoSection(a) && NoSection(b)
    ensures NoSection(a + b)
  {
    forall i | 0 <= i < |a + b| ensures !(a + b)[i].Section? {
      if i < |a| { assert (a + b)[i] == a[i]; } else { assert (a + b)[i] == b[i - |a|]; }
    }
  }

  /** The summary section holds one section heading, its own, and no separator. */
  lemma {:induction false} SummarySectionPlain(summary: Option<Value>, parse: string -> Option<Value>)
    ensures var bs := SummarySection(summary, parse);
      && bs[0] == Section("Executive Summary") && NoSection(bs[1..]) && NoRule(bs)
  {
    var w := SummaryWalk(summary, parse);
    SummaryWalkPlain(summary, parse);
    var tail := if w.threw then [Body(Fallback(summary))] else [];
    var rest := w.blocks + tail;
    assert NoSection(rest) && NoRule(rest) by {
      forall i | 0 <= i < |rest| ensures !rest[i].Section? && rest[i] != Rule {
        if i < |w.blocks| { assert rest[i] == w.blocks[i]; }
      }
    }
    var bs := SummarySection(summary, parse);
    assert bs == [Section("Executive Summary")] + rest;
    assert bs[1..] == rest;
  }

  /** The report fails with 404 exactly when neither the ObjectId nor the legacy id finds a meeting. */
  lemma {:induction false} ExportNotFound(meetings: seq<Doc>, research: seq<Doc>, legacy: seq<Doc>, meetingId: string,
                       parse: string -> Option<Value>)
    ensures Export(meetings, research, legacy, meetingId, parse).Error?
            && Export(meetings, research, legacy, meetingId, parse).status == 404
        <==> AudioMeeting.FindById(meetings, Str(meetingId)).None?
             && FindOne(meetings, "meetingId", Str(meetingId)).None?
  {
  }

  /**
   * A found meeting fails with 500 when the meeting id holds a character the header
   * refuses or a participant lacks research text; otherwise it gets its report.
   */
  lemma {:induction false} ExportFailsOnBadResearch(meetings: seq<Doc>, research: seq<Doc>, legacy: seq<Doc>, meetingId: string,
                                 parse: string -> Option<Value>)
    requires Lookup(meetings, meetingId).Some?
    ensures var ps := Participants(research, legacy, Lookup(meetings, meetingId).value, meetingId);
      && (Export(meetings, research, legacy, meetingId, parse) == Error(500, ExportFailure)
          <==> !HeaderSafe(meetingId) || exists i :: 0 <= i < |ps| && !HasResearchText(ps[i]))
      && (Export(meetings, research, legacy, meetingId, parse).Report?
          <==> HeaderSafe(meetingId) && forall i :: 0 <= i < |ps| ==> HasResearchText(ps[i]))
  {
    FileNameSafe(meetingId);
  }

  /** The report opens with the title, file and date lines and the summary heading, and closes with the transcript page. */
  lemma {:induction false} ReportBlocksEnds(m: Doc, ps: seq<Doc>, parse: string -> Option<Value>)
    requires forall i :: 0 <= i < |ps| ==> HasResearchText(ps[i])
    ensures var bs := ReportBlocks(m, ps, parse);
      && |bs| >= 7
      && bs[..4] == Header(m) + [Section("Executive Summary")]
      && bs[|bs| - 3..] == TranscriptSection(m)
  {
    var head, sum := Header(m), SummarySection(Field(m, "summary"), parse);
    var rest := ParticipantSection(ps) + TranscriptSection(m);
    assert ReportBlocks(m, ps, parse) == head + sum + rest;
    assert (head + sum + rest)[..4] == head + [sum[0]];
  }

  /** Each participant draws one separator, and nothing else in the report does. */
  lemma {:induction false} ReportBlocksRules(m: Doc, ps: seq<Doc>, parse: string -> Option<Value>)
    requires forall i :: 0 <= i < |ps| ==> HasResearchText(ps[i])
    ensures Rules(ReportBlocks(m, ps, parse)) == |ps|
  {
    var head, sum, part, tail := Header(m), SummarySection(Field(m, "summary"), parse), ParticipantSection(ps), TranscriptSection(m);
    assert Rules(head) == 0 by { NoRuleCount(head); }
    assert Rules(sum) == 0 by {
      SummarySectionPlain(Field(m, "summary"), parse);
      NoRuleCount(sum);
    }
    assert Rules(tail) == 0 by { NoRuleCount(tail); }
    ParticipantSectionRules(ps);
    RulesAppend(head, sum);
    RulesAppend(head + sum, part);
    RulesAppend(head + sum + part, tail);
  }

  lemma {:induction false} ParticipantSectionRules(ps: seq<Doc>)
    requires forall i :: 0 <= i < |ps| ==> HasResearchText(ps[i])
    ensures Rules(ParticipantSection(ps)) == |ps|
  {
    if ps != [] {
      var lead := [NewPage, Section("Participant Intelligence")];
      ParticipantsDrawn(ps);
      NoRuleCount(lead);
      RulesAppend(lead, ParticipantsBlocks(ps));
    }
  }

  /** The participant page is in the report exactly when the meeting has participants. */
  lemma {:induction false} ReportBlocksParticipantPage(m: Doc, ps: seq<Doc>, parse: string -> Option<Value>)
    requires forall i :: 0 <= i < |ps| ==> HasResearchText(ps[i])
    ensures Section("Participant Intelligence") in ReportBlocks(m, ps, parse) <==> |ps| > 0
  {
    var head, sum, part, tail := Header(m), SummarySection(Field(m, "summary"), parse), ParticipantSection(ps), TranscriptSection(m);
    var pi := Section("Participant Intelligence");
    SummarySectionPlain(Field(m, "summary"), parse);
    assert pi !in head && pi !in tail;
    assert pi !in sum by {
      assert sum == [sum[0]] + sum[1..];
    }
    if ps != [] {
      assert part[1] == pi;
    }
  }

  /**
   * The report's layout: file name from the requested id; the title, file and date lines
   * and the summary heading first; the transcript page last; one separator per
   * participant; and a participant page exactly when the meeting has participants.
   */
  lemma {:induction false} ReportLayout(meetings: seq<Doc>, research: seq<Doc>, legacy: seq<Doc>, meetingId: string,
                     parse: string -> Option<Value>)
    requires Export(meetings, research, legacy, meetingId, parse).Report?
    ensures Lookup(meetings, meetingId).Some?
    ensures var r, m := Export(meetings, research, legacy, meetingId, parse), Lookup(meetings, meetingId).value;
      var ps := Participants(research, legacy, m, meetingId);
      && r.filename == "Meeting_Summary_" + meetingId + ".pdf" && HeaderSafe(meetingId)
      && |r.blocks| >= 7
      && r.blocks[..4] == Header(m) + [Section("Executive Summary")]
      && r.blocks[|r.blocks| - 3..] == [NewPage, Section("Full Transcript"), Body(TranscriptText(Field(m, "transcript")))]
      && Rules(r.blocks) == |ps|
      && (Section("Participant Intelligence") in r.blocks <==> |ps| > 0)
  {
    var m := Lookup(meetings, meetingId).value;
    var ps := Participants(research, legacy, m, meetingId);
    FileNameSafe(meetingId);
    assert HeaderSafe(FileName(meetingId)) && forall i :: 0 <= i < |ps| ==> HasResearchText(ps[i]);
    assert Export(meetings, research, legacy, meetingId, parse) == Report(FileName(meetingId), ReportBlocks(m, ps, parse));
    ReportBlocksEnds(m, ps, parse);
    ReportBlocksRules(m, ps, parse);
    ReportBlocksParticipantPage(m, ps, parse);
  }

  /** A stored summary string that does not parse is drawn as it is, under the summary heading. */
  lemma {:induction false} UnparsableSummary(t: string, parse: string -> Option<Value>)
    requires parse(t).None?
    ensures SummarySection(Some(Str(t)), parse) == [Section("Executive Summary"), Body(t)]
  {
  }

  /** The `decisions` list of a summary is never drawn. */
  lemma {:induction false} DecisionsNeverDrawn(f: map<string, Value>, d: Value, parse: string -> Option<Value>)
    ensures SummaryWalk(Some(Obj(f["decisions" := d])), parse) == SummaryWalk(Some(Obj(f - {"decisions"})), parse)
  {
    var v1, v2 := Obj(f["decisions" := d]), Obj(f - {"decisions"});
    assert forall k :: k != "decisions" ==> Prop(v1, k) == Prop(v2, k);
  }

  /**
   * Groups drawn before a throw stay in the report: with a list of outcomes and risks
   * that are a string, the outcomes are drawn, then the risks heading, then the raw summary.
   */
  lemma {:induction false} ThrowKeepsEarlierGroups(raw: string, f: map<string, Value>, parse: string -> Option<Value>)
    requires parse(raw) == Some(Obj(f))
    requires "outcomes" in f && f["outcomes"].Arr? && |f["outcomes"].items| > 0
    requires "risks" in f && f["risks"].Str? && f["risks"].s != ""
    ensures SummarySection(Some(Str(raw)), parse)
         == [Section("Executive Summary"), Heading("Key Outcomes")] + Bullets(f["outcomes"].items)
            + [Heading("Risks & Open Questions"), Body(raw)]
  {
    var v := Obj(f);
    var outcomes := [Heading("Key Outcomes")] + Bullets(f["outcomes"].items);
    assert Group(Prop(v, "outcomes"), "Key Outcomes") == Walk(outcomes, false);
    assert Group(Prop(v, "risks"), "Risks & Open Questions") == Walk([Heading("Risks & Open Questions")], true);
    var w := SummaryWalk(Some(Str(raw)), parse);
    assert w == Walk(outcomes + [Heading("Risks & Open Questions")], true);
    assert Fallback(Some(Str(raw))) == raw;
  }

  /**
   * A null action item stops the list: the items before it are drawn, one task line each,
   * and the summary then falls back to its raw text.
   */
  lemma {:induction false} NullActionItemStops(items: seq<Value>, k: nat)
    requires k < |items| && items[k] == Null && Null !in items[..k]
    ensures var w := Actions(Some(Arr(items)));
      && w.threw
      && w.blocks == [Heading("Action Items")] + ItemsBlocks(items[..k])
      && Tasks(w.blocks) == TaskLines(items[..k])
  {
    FirstNullUnique(items, k);
    ActionItemsDrawn(items[..k]);
    TasksAppend([Heading("Action Items")], ItemsBlocks(items[..k]));
    assert [Heading("Action Items")][..0] == [];
  }

  /** Lists absent or arrays, and no null action item: nothing throws and no raw summary is appended. */
  lemma {:induction false} WellFormedSummaryNoFallback(raw: string, f: map<string, Value>, parse: string -> Option<Value>)
    requires parse(raw) == Some(Obj(f))
    requires forall k :: k in {"outcomes", "risks", "nextSteps", "actionItems"} && k in f ==> f[k].Arr?
    requires "actionItems" in f ==> Null !in f["actionItems"].items
    ensures !SummaryWalk(Some(Str(raw)), parse).threw
    ensures SummarySection(Some(Str(raw)), parse) == [Section("Executive Summary")] + SummaryWalk(Some(Str(raw)), parse).blocks
  {
    if "actionItems" in f && |f["actionItems"].items| > 0 {
      var items := f["actionItems"].items;
      FirstNullUnique(items, |items|);
    }
  }

  /** With a well-formed summary every action item gets its task line, in order, and no other group draws one. */
  lemma {:induction false} WellFormedSummaryTasks(raw: string, f: map<string, Value>, parse: string -> Option<Value>)
    requires parse(raw) == Some(Obj(f))
    requires forall k :: k in {"outcomes", "risks", "nextSteps", "actionItems"} && k in f ==> f[k].Arr?
    requires "actionItems" in f ==> Null !in f["actionItems"].items
    ensures Tasks(SummaryWalk(Some(Str(raw)), parse).blocks)
         == (if "actionItems" in f then TaskLines(f["actionItems"].items) else [])
  {
    var v := Obj(f);
    var g1, g2, g3 := Group(Prop(v, "outcomes"), "Key Outcomes"), Group(Prop(v, "risks"), "Risks & Open Questions"),
      Group(Prop(v, "nextSteps"), "Next Steps");
    var g4 := Actions(Prop(v, "actionItems"));
    assert SummaryWalk(Some(Str(raw)), parse) == Then(Then(Then(g1, g2), g3), g4);
    GroupNoTasks(Prop(v, "outcomes"), "Key Outcomes");
    GroupNoTasks(Prop(v, "risks"), "Risks & Open Questions");
    GroupNoTasks(Prop(v, "nextSteps"), "Next Steps");
    WalkTasks(g1, g2, g3, g4);
    if "actionItems" in f {
      ActionsTasks(f["actionItems"].items);
    }
  }

  lemma {:induction false} WalkTasks(g1: Walk, g2: Walk, g3: Walk, g4: Walk)
    requires !g1.threw && !g2.threw && !g3.threw
    requires Tasks(g1.blocks) == [] && Tasks(g2.blocks) == [] && Tasks(g3.blocks) == []
    ensures Tasks(Then(Then(Then(g1, g2), g3), g4).blocks) == Tasks(g4.blocks)
  {
    TasksAppend(g1.blocks, g2.blocks);
    TasksAppend(g1.blocks + g2.blocks, g3.blocks);
    TasksAppend(g1.blocks + g2.blocks + g3.blocks, g4.blocks);
  }

  /** A list of action items without a null draws one task line per item, in order. */
  lemma {:induction false} ActionsTasks(items: seq<Value>)
    requires Null !in items
    ensures !Actions(Some(Arr(items))).threw
    ensures Tasks(Actions(Some(Arr(items))).blocks) == TaskLines(items)
  {
    if |items| > 0 {
      var head := [Heading("Action Items")];
      assert Actions(Some(Arr(items))) == Walk(head + ItemsBlocks(items), false) by {
        FirstNullUnique(items, |items|);
        assert items[..|items|] == items;
      }
      ActionItemsDrawn(items);
      TasksAppend(head, ItemsBlocks(items));
      assert Tasks(head) == [] by { assert head[..0] == []; }
    }
  }

  lemma {:induction false} GroupNoTasks(v: Option<Value>, heading: string)
    ensures Tasks(Group(v, heading).blocks) == []
  {
    var bs := Group(v, heading).blocks;
    NoTasks(bs);
  }

  lemma {:induction false} NoTasks(bs: seq<Block>)
    requires forall i :: 0 <= i < |bs| ==> !bs[i].Strong?
    ensures Tasks(bs) == []
  {
    if bs != [] {
      NoTasks(bs[..|bs| - 1]);
    }
  }

  /** The owner and deadline line: each part appears exactly when its value is truthy. */
  lemma {:induction false} MetaLineForms(owner: Option<Value>, deadline: Option<Value>)
    ensures Defined(owner) && Defined(deadline) ==>
      MetaLine(owner, deadline) == "Owner: " + Show(owner.value) + " | Deadline: " + Show(deadline.value)
    ensures Defined(owner) && !Defined(deadline) ==> MetaLine(owner, deadline) == "Owner: " + Show(owner.value) + " "
    ensures !Defined(owner) && Defined(deadline) ==> MetaLine(owner, deadline) == " | Deadline: " + Show(deadline.value)
  {
  }

  /** An action item gets an owner and deadline line exactly when either is truthy. */
  lemma {:induction false} ItemMetaLine(a: Value)
    requires a != Null
    ensures |ItemBlocks(a)| == 2 <==> Defined(Prop(a, "owner")) || Defined(Prop(a, "deadline"))
    ensures |ItemBlocks(a)| == 1 || ItemBlocks(a)[1] == Note(MetaLine(Prop(a, "owner"), Prop(a, "deadline")))
  {
  }
}
