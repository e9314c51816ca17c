/**
 * The Express request and response as the controllers see them: the authenticated user
 * (the JWT payload), the uploaded file, the JSON body, and the status with the JSON
 * (or plain text) body sent back.
 */
module Http {
  import opened Wrappers
  import opened Bson
  import opened Js

  /** `req.file` as the upload middleware fills it. */
  datatype File = File(originalName: string, mimeType: string, path: string)

  /** `req.user` (absent when no token was checked), `req.file` and `req.body`. */
  datatype Request = Request(user: Option<Doc>, file: Option<File>, body: Doc)

  /** The status code and the body sent. */
  datatype Response = Response(status: int, body: Value)

  /**
   * `req.user ? req.user.k : null`, as it is stored and tested: a missing claim reads as
   * undefined, which the driver stores as null and which is falsy like null.
   */
  function UserField(user: Option<Doc>, k: string): (r: Value)
    ensures user.None? ==> r == Null
    ensures user.Some? && k in user.value ==> r == user.value[k]
    ensures user.Some? && k !in user.value ==> r == Null
  {
    if user.Some? && k in user.value then user.value[k] else Null
  }

  /** `${req.body.language || 'English'}`: the language named in the prompts. */
  function Language(body: Doc): (r: string)
    ensures !Defined(Field(body, "language")) ==> r == "English"
    ensures Defined(Field(body, "language")) && body["language"].Str? ==> r == body["language"].s
  {
    if Defined(Field(body, "language")) then Show(body["language"]) else "English"
  }

  /** An object literal's `k: o` once serialised: an undefined value leaves the key out. */
  function Put(d: Doc, k: string, o: Option<Value>): (r: Doc)
    ensures o.Some? ==> r == d[k := o.value]
    ensures o.None? ==> k !in r && forall j :: j in d && j != k ==> j in r && r[j] == d[j]
    ensures r.Keys <= d.Keys + {k}
  {
    if o.Some? then d[k := o.value] else d - {k}
  }

  /** `{error: message}`. */
  function ErrorBody(message: string): Value {
    Obj(map["error" := Str(message)])
  }

  /** `{error: message, details: error.message}`. */
  function ErrorDetails(message: string, details: string): Value {
    Obj(map["error" := Str(message), "details" := Str(details)])
  }

  /** A list of stored records as a JSON array. */
  function Records(ds: seq<Doc>): (r: seq<Value>)
    ensures |r| == |ds|
    ensures forall i :: 0 <= i < |ds| ==> r[i] == Obj(ds[i])
  {
    seq(|ds|, i requires 0 <= i < |ds| => Obj(ds[i]))
  }

  /** The array holds the records and nothing else. */
  lemma {:induction false} RecordsMembers(ds: seq<Doc>)
    ensures forall x: Value :: x in Records(ds) <==> x.Obj? && x.fields in ds
  {
    forall x: Value | x.Obj? && x.fields in ds ensures x in Records(ds) {
      var i :| 0 <= i < |ds| && ds[i] == x.fields;
      assert Records(ds)[i] == x;
    }
  }

  /** The answer tells the records apart: different record lists never give the same array. */
  lemma {:induction false} RecordsInjective(ds: seq<Doc>, es: seq<Doc>)
    requires Records(ds) == Records(es)
    ensures ds == es
  {
    assert |ds| == |es|;
    forall i | 0 <= i < |ds| ensures ds[i] == es[i] {
      assert Records(ds)[i] == Records(es)[i];
    }
  }
}
