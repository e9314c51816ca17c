/**
 * The deterministic part of the Gemini service: cleaning the model's replies (Markdown
 * fences, the outermost braces), the research fallback, and the shape of the meeting
 * brief it returns. The model calls themselves are the uninterpreted `Services`.
 */
module GeminiService {
  import opened Wrappers
  import opened Bson
  import opened Js

  const NotFound := "Information not found."
  const ParseFailure := "Failed to parse AI response"
  /** The TypeError `p.name` raises on a null participant. */
  const NullRead := "Cannot read properties of null (reading 'name')"

  /** What one model call gives back: its text, or the error it threw. */
  datatype Reply = Answer(text: string) | Failed(message: string)

  /**
   * The external capabilities: transcription (file path, mime type, language), the two
   * summarisers and the brief generator (raw model text), participant search (name,
   * email, company), and `JSON.parse` (None when it throws).
   */
  datatype Services = Services(
    transcribe: (string, string, string) -> Reply,
    summarize: (string, string) -> Reply,
    summarizeWhatsApp: (string, string) -> Reply,
    research: (Option<Value>, Option<Value>, Option<Value>) -> Reply,
    brief: (Value, seq<Value>, seq<string>) -> Reply,
    parse: string -> Option<Value>)

  /** `replace(/^```json\n?/, '')`. */
  function DropOpeningFence(s: string): string {
    if StartsWith(s, "```json\n") then s[8..]
    else if StartsWith(s, "```json") then s[7..]
    else s
  }

  /** `replace(/\n?```$/, '')`. */
  function DropClosingFence(s: string): string {
    if EndsWith(s, "\n```") then s[..|s| - 4]
    else if EndsWith(s, "```") then s[..|s| - 3]
    else s
  }

  /** The clean-up both summarisers apply to the model's text. */
  function StripFences(s: string): (r: string)
    ensures r == [] || (!IsWhiteSpace(r[0]) && !IsWhiteSpace(r[|r| - 1]))
  {
    Trim(DropClosingFence(DropOpeningFence(s)))
  }

  lemma {:induction false} TrimConsSpace(c: char, x: string)
    requires IsWhiteSpace(c)
    ensures Trim([c] + x) == Trim(x)
  {
    var s, n := [c] + x, LeadingSpaces(x);
    assert LeadingSpaces(s) == n + 1 by {
      forall i | 0 <= i < n + 1 ensures IsWhiteSpace(s[i]) {
        if i > 0 { assert s[i] == x[i - 1]; }
      }
      if n + 1 < |s| { assert s[n + 1] == x[n]; }
      LeadingSpacesUnique(s, n + 1);
    }
    assert s[n + 1..] == x[n..];
  }

  lemma {:induction false} LeadingSpacesSnoc(x: string, c: char, i: nat)
    requires i < |x| && !IsWhiteSpace(x[i])
    ensures LeadingSpaces(x + [c]) == LeadingSpaces(x)
  {
    var s, n := x + [c], LeadingSpaces(x);
    assert n <= i;
    assert forall j :: 0 <= j <= n ==> s[j] == x[j];
    LeadingSpacesUnique(s, n);
  }

  lemma {:induction false} TrailingSpacesSnoc(t: string, c: char)
    requires IsWhiteSpace(c)
    ensures TrailingSpaces(t + [c]) == 1 + TrailingSpaces(t)
  {
    var e, n := t + [c], TrailingSpaces(t);
    assert forall j :: 0 <= j < |t| ==> e[j] == t[j];
    assert e[|e| - 1] == c;
    TrailingSpacesUnique(e, n + 1);
  }

  lemma {:induction false} AllSpaceTrim(x: string)
    requires forall i :: 0 <= i < |x| ==> IsWhiteSpace(x[i])
    ensures LeadingSpaces(x) == |x| && Trim(x) == ""
  {
    LeadingSpacesUnique(x, |x|);
  }

  lemma {:induction false} TrimSnocSpace(x: string, c: char)
    requires IsWhiteSpace(c)
    ensures Trim(x + [c]) == Trim(x)
  {
    if i :| 0 <= i < |x| && !IsWhiteSpace(x[i]) {
      LeadingSpacesSnoc(x, c, i);
      var a := LeadingSpaces(x);
      var t := x[a..];
      var e := (x + [c])[a..];
      assert e == t + [c];
      TrailingSpacesSnoc(t, c);
      var n := TrailingSpaces(t);
      assert Trim(x) == t[..|t| - n];
      assert Trim(x + [c]) == e[..|e| - (n + 1)];
      assert e[..|e| - (n + 1)] == t[..|t| - n];
    } else {
      AllSpaceTrim(x);
      AllSpaceTrim(x + [c]);
    }
  }

  /** The opening fence goes, with the newline after it if there is one. */
  lemma {:induction false} OpeningFenceDropped(body: string)
    ensures var inner := if body != [] && body[0] == '\n' then body[1..] else body;
      && DropOpeningFence("```json" + body + "```") == inner + "```"
      && Trim(inner) == Trim(body)
  {
    var s := "```json" + body + "```";
    assert s[..7] == "```json";
    if body != [] && body[0] == '\n' {
      assert s[..8] == "```json\n";
      assert s[8..] == body[1..] + "```";
      assert body == ['\n'] + body[1..];
      TrimConsSpace('\n', body[1..]);
    } else {
      assert s[..8][7] == (body + "```")[0];
      assert s[7..] == body + "```";
    }
  }

  /** The closing fence goes, with the newline before it if there is one; trimming absorbs that newline. */
  lemma {:induction false} ClosingFenceDropped(inner: string)
    ensures Trim(DropClosingFence(inner + "```")) == Trim(inner)
  {
    var u := inner + "```";
    assert u[|u| - 3..] == "```";
    if inner != [] && inner[|inner| - 1] == '\n' {
      var p := inner[..|inner| - 1];
      assert u[|u| - 4..] == "\n```";
      assert u[..|u| - 4] == p;
      assert inner == p + ['\n'];
      TrimSnocSpace(p, '\n');
    } else {
      if inner != [] {
        assert u[|u| - 4..][0] == inner[|inner| - 1];
      }
      assert u[..|u| - 3] == inner;
    }
  }

  /**
   * A reply wrapped in a ```json fence comes back as its trimmed body, whether or not the
   * fences stand on lines of their own.
   */
  lemma {:induction false} FencedReply(body: string)
    ensures StripFences("```json" + body + "```") == Trim(body)
  {
    OpeningFenceDropped(body);
    ClosingFenceDropped(if body != [] && body[0] == '\n' then body[1..] else body);
  }

  /** A reply with no fence at its very start or end comes back trimmed and otherwise as it was. */
  lemma {:induction false} UnfencedReply(s: string)
    requires !StartsWith(s, "```json") && !EndsWith(s, "```")
    ensures StripFences(s) == Trim(s)
  {
    assert DropOpeningFence(s) == s;
    assert DropClosingFence(s) == s;
  }

  /**
   * White space before an opening fence keeps the fence: the fences are only removed at the
   * very start and end, and trimming happens last.
   */
  lemma {:induction false} LeadingSpaceKeepsFence(c: char, body: string)
    requires IsWhiteSpace(c)
    requires body != [] && !IsWhiteSpace(body[|body| - 1]) && body[|body| - 1] != '`'
    ensures StripFences([c] + "```json" + body) == "```json" + body
  {
    var f := "```json" + body;
    var s := [c] + f;
    assert [c] + "```json" + body == s;
    assert DropOpeningFence(s) == s by {
      assert s[..7][0] == c && s[..8][0] == c;
    }
    assert DropClosingFence(s) == s by {
      assert s[|s| - 3..][2] == body[|body| - 1];
      assert s[|s| - 4..][3] == body[|body| - 1];
    }
    TrimConsSpace(c, f);
    assert Trim(f) == f by {
      assert f[0] == '`' && f[|f| - 1] == body[|body| - 1];
      TrimOfTrimmed(f);
    }
  }

  /** `summarizeText`: the summariser's reply with its fences stripped; a failure propagates. */
  function Summarize(svc: Services, transcript: string, language: string): Reply {
    match svc.summarize(transcript, language)
    case Answer(t) => Answer(StripFences(t))
    case Failed(m) => Failed(m)
  }

  /** `summarizeWhatsApp`: the same clean-up over the WhatsApp summariser. */
  function SummarizeWhatsApp(svc: Services, transcript: string, language: string): Reply {
    match svc.summarizeWhatsApp(transcript, language)
    case Answer(t) => Answer(StripFences(t))
    case Failed(m) => Failed(m)
  }

  /** The brief's clean-up: the span from the first '{' to the last '}', via `substring`. */
  function ExtractBraces(content: string): string {
    var first := IndexOf(content, '{');
    var last := LastIndexOf(content, '}');
    if first != -1 && last != -1 then Substring(content, first, last + 1) else content
  }

  /** With a '{' before a '}', the result is the inclusive span from the first '{' to the last '}'. */
  lemma {:induction false} ExtractBracesSpan(content: string)
    requires '{' in content && '}' in content
    requires IndexOf(content, '{') < LastIndexOf(content, '}')
    ensures var r, first, last := ExtractBraces(content), IndexOf(content, '{'), LastIndexOf(content, '}');
      && r == content[first..last + 1]
      && r[0] == '{' && r[|r| - 1] == '}'
  {
    var first, last := IndexOf(content, '{'), LastIndexOf(content, '}');
    var r := content[first..last + 1];
    assert ExtractBraces(content) == r by {
      assert 0 <= first < last < |content|;
      assert Clamp(first, |content|) == first && Clamp(last + 1, |content|) == last + 1;
    }
    assert r[0] == content[first] && r[|r| - 1] == content[last];
  }

  /** Without a '{' or without a '}', the content is left as it is. */
  lemma {:induction false} ExtractBracesMissing(content: string)
    requires '{' !in content || '}' !in content
    ensures ExtractBraces(content) == content
  {
    assert IndexOf(content, '{') == -1 || LastIndexOf(content, '}') == -1;
  }

  /**
   * When every '}' comes before the first '{', `substring` swaps its bounds: the result is
   * the text strictly between the last '}' and the first '{', which holds no brace at all.
   */
  lemma {:induction false} ExtractBracesReversed(content: string)
    requires '{' in content && '}' in content
    requires LastIndexOf(content, '}') < IndexOf(content, '{')
    ensures var r, first, last := ExtractBraces(content), IndexOf(content, '{'), LastIndexOf(content, '}');
      && r == content[last + 1..first]
      && '{' !in r && '}' !in r
  {
    var first, last := IndexOf(content, '{'), LastIndexOf(content, '}');
    var r := content[last + 1..first];
    assert ExtractBraces(content) == r by {
      assert Clamp(first, |content|) == first && Clamp(last + 1, |content|) == last + 1;
    }
    forall j | 0 <= j < |r| ensures r[j] != '{' && r[j] != '}' {
      assert r[j] == content[last + 1 + j];
    }
  }

  /** Extracting again from an extracted span changes nothing. */
  lemma {:induction false} ExtractBracesIdempotent(content: string)
    requires '{' in content && '}' in content
    requires IndexOf(content, '{') < LastIndexOf(content, '}')
    ensures ExtractBraces(ExtractBraces(content)) == ExtractBraces(content)
  {
    ExtractBracesSpan(content);
    var r := ExtractBraces(content);
    assert IndexOf(r, '{') == 0;
    assert LastIndexOf(r, '}') == |r| - 1;
    assert Substring(r, 0, |r|) == r[0..|r|];
    assert r[0..|r|] == r;
  }

  /** `researchParticipant`: the search's text, or the fixed fallback when the search throws. */
  function ResearchParticipant(svc: Services, p: Value): string
    requires p != Null
  {
    match svc.research(Prop(p, "name"), Prop(p, "email"), Prop(p, "company"))
    case Answer(t) => t
    case Failed(_) => NotFound
  }

  /**
   * One `researchResults` entry as the controller reads it back through
   * `JSON.parse(JSON.stringify(...))`: undefined properties are dropped.
   */
  function ResearchEntry(p: Value, text: string): Value
    requires p != Null
  {
    var f := map["data" := Str(text)];
    var f := if Prop(p, "name").Some? then f["name" := Prop(p, "name").value] else f;
    var f := if Prop(p, "email").Some? then f["email" := Prop(p, "email").value] else f;
    Obj(if Prop(p, "company").Some? then f["company" := Prop(p, "company").value] else f)
  }

  /** An entry copies the participant's name, email and company and carries the research text as `data`. */
  lemma {:induction false} ResearchEntryFields(p: Value, text: string)
    requires p != Null
    ensures var e := ResearchEntry(p, text);
      && e.Obj? && e.fields.Keys <= {"name", "email", "company", "data"}
      && e.fields["data"] == Str(text)
      && forall k :: k in {"name", "email", "company"} ==> Field(e.fields, k) == Prop(p, k)
  {
  }

  /** The index-aligned zip of participants with their research texts. */
  function ResearchEntries(ps: seq<Value>, texts: seq<string>): (r: seq<Value>)
    requires |ps| == |texts| && Null !in ps
    ensures |r| == |ps|
    ensures forall i :: 0 <= i < |ps| ==> r[i] == ResearchEntry(ps[i], texts[i])
  {
    if ps == [] then [] else [ResearchEntry(ps[0], texts[0])] + ResearchEntries(ps[1..], texts[1..])
  }

  /** The research texts, one per participant, in order. */
  function ResearchTexts(svc: Services, ps: seq<Value>): seq<string>
    requires Null !in ps
  {
    seq(|ps|, i requires 0 <= i < |ps| => ResearchParticipant(svc, ps[i]))
  }

  /** `generateMeetingBrief`: the wrapper `{briefData, researchResults}`, or the error it throws. */
  function GenerateMeetingBrief(svc: Services, topic: Value, ps: seq<Value>): (r: Result<Value>)
    ensures r.Ok? ==> && r.value.Obj? && "briefData" in r.value.fields && "researchResults" in r.value.fields
                      && r.value.fields["researchResults"].Arr?
                      && |r.value.fields["researchResults"].items| == |ps|
  {
    if Null in ps then Err(NullRead)
    else
      var texts := ResearchTexts(svc, ps);
      match svc.brief(topic, ps, texts)
      case Failed(m) => Err(m)
      case Answer(raw) =>
        match svc.parse(ExtractBraces(raw))
        case None => Err(ParseFailure)
        case Some(b) => Ok(Obj(map["briefData" := b, "researchResults" := Arr(ResearchEntries(ps, texts))]))
  }

  /**
   * A brief succeeds exactly when no participant is null, the generator answers and its
   * extracted text parses; then `researchResults` has one entry per participant, in order,
   * entry i copying participant i with the i-th research text as `data`.
   */
  lemma {:induction false} BriefZipsParticipants(svc: Services, topic: Value, ps: seq<Value>)
    ensures var r := GenerateMeetingBrief(svc, topic, ps);
      r.Ok? <==> (Null !in ps && svc.brief(topic, ps, ResearchTexts(svc, ps)).Answer?
                  && svc.parse(ExtractBraces(svc.brief(topic, ps, ResearchTexts(svc, ps)).text)).Some?)
    ensures var r := GenerateMeetingBrief(svc, topic, ps);
      r.Ok? ==>
        && r.value.Obj? && r.value.fields.Keys == {"briefData", "researchResults"}
        && r.value.fields["briefData"] == svc.parse(ExtractBraces(svc.brief(topic, ps, ResearchTexts(svc, ps)).text)).value
        && r.value.fields["researchResults"].Arr?
        && |r.value.fields["researchResults"].items| == |ps|
        && forall i :: 0 <= i < |ps| ==>
             r.value.fields["researchResults"].items[i] == ResearchEntry(ps[i], ResearchParticipant(svc, ps[i]))
  {
  }

  /** Text the generator answers but that does not parse fails with "Failed to parse AI response". */
  lemma {:induction false} BriefParseFailure(svc: Services, topic: Value, ps: seq<Value>)
    requires Null !in ps
    requires svc.brief(topic, ps, ResearchTexts(svc, ps)).Answer?
    requires svc.parse(ExtractBraces(svc.brief(topic, ps, ResearchTexts(svc, ps)).text)).None?
    ensures GenerateMeetingBrief(svc, topic, ps) == Err(ParseFailure)
  {
  }

  /** Failed searches never fail the brief: each such participant's `data` is "Information not found.". */
  lemma {:induction false} BriefToleratesFailedResearch(svc: Services, topic: Value, ps: seq<Value>, i: nat)
    requires Null !in ps && i < |ps|
    requires svc.research(Prop(ps[i], "name"), Prop(ps[i], "email"), Prop(ps[i], "company")).Failed?
    requires GenerateMeetingBrief(svc, topic, ps).Ok?
    ensures GenerateMeetingBrief(svc, topic, ps).value.fields["researchResults"].items[i].fields["data"] == Str(NotFound)
  {
    BriefZipsParticipants(svc, topic, ps);
  }
}
