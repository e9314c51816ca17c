/**
 * What the MongoDB driver does with one collection, seen as a sequence of documents in
 * natural (insertion) order: equality and `$in` filters, `find`, `findOne`,
 * `updateOne` with `$set`, and a descending `sort` on a date field.
 */
module Query {
  import opened Wrappers
  import opened Bson

  /** The filter `{k: v}`: equal field value; a null query value also matches a missing field. */
  predicate FieldMatches(d: Doc, k: string, v: Value) {
    if k in d then d[k] == v else v == Null
  }

  /** The filter `{k: {$in: vs}}`. */
  predicate FieldIn(d: Doc, k: string, vs: seq<Value>) {
    exists v :: v in vs && FieldMatches(d, k, v)
  }

  /** `find(filter).toArray()`: every matching document, in collection order, duplicates kept. */
  function Find(docs: seq<Doc>, k: string, vs: seq<Value>): (r: seq<Doc>)
    ensures |r| <= |docs|
    ensures forall i :: 0 <= i < |r| ==> FieldIn(r[i], k, vs)
  {
    if docs == [] then []
    else (if FieldIn(docs[0], k, vs) then [docs[0]] else []) + Find(docs[1..], k, vs)
  }

  /** `find` returns every matching document as often as the collection holds it: nothing is collapsed or lost. */
  lemma {:induction false} FindCounts(docs: seq<Doc>, k: string, vs: seq<Value>)
    ensures forall d :: multiset(Find(docs, k, vs))[d] == if FieldIn(d, k, vs) then multiset(docs)[d] else 0
  {
    if docs != [] {
      FindCounts(docs[1..], k, vs);
      assert docs == [docs[0]] + docs[1..];
      assert multiset(docs) == multiset{docs[0]} + multiset(docs[1..]);
    }
  }

  /** Inserting a document extends the result of every find by that document when it matches. */
  lemma {:induction false} FindAppend(docs: seq<Doc>, d: Doc, k: string, vs: seq<Value>)
    ensures Find(docs + [d], k, vs) == Find(docs, k, vs) + (if FieldIn(d, k, vs) then [d] else [])
  {
    if docs == [] {
      assert Find([d], k, vs) == (if FieldIn(d, k, vs) then [d] else []) + Find([], k, vs);
    } else {
      var e := docs + [d];
      assert e[0] == docs[0] && e[1..] == docs[1..] + [d];
      FindAppend(docs[1..], d, k, vs);
    }
  }

  /** Inserting documents that all match extends the result of the find by exactly those documents. */
  lemma {:induction false} FindAppendAll(docs: seq<Doc>, more: seq<Doc>, k: string, vs: seq<Value>)
    requires forall j :: 0 <= j < |more| ==> FieldIn(more[j], k, vs)
    ensures Find(docs + more, k, vs) == Find(docs, k, vs) + more
  {
    if more == [] {
      assert docs + more == docs;
    } else {
      var init := more[..|more| - 1];
      FindAppendAll(docs, init, k, vs);
      FindAppend(docs + init, more[|more| - 1], k, vs);
      assert docs + more == (docs + init) + [more[|more| - 1]];
      assert more == init + [more[|more| - 1]];
    }
  }

  /** `findOne({k: v})`: the first matching document in collection order, or null. */
  function FindOne(docs: seq<Doc>, k: string, v: Value): (r: Option<Doc>)
    ensures r.None? <==> forall i :: 0 <= i < |docs| ==> !FieldMatches(docs[i], k, v)
    ensures r.Some? ==> exists i :: (0 <= i < |docs| && docs[i] == r.value && FieldMatches(docs[i], k, v)
      && forall j :: 0 <= j < i ==> !FieldMatches(docs[j], k, v))
  {
    if docs == [] then None
    else if FieldMatches(docs[0], k, v) then Some(docs[0])
    else
      var r := FindOne(docs[1..], k, v);
      assert forall i :: 1 <= i < |docs| ==> docs[i] == docs[1..][i - 1];
      r
  }

  /** The ids of a collection's documents. */
  function IdsOf(docs: seq<Doc>): set<Value> {
    set i | 0 <= i < |docs| && "_id" in docs[i] :: docs[i]["_id"]
  }

  /** Every document carries an ObjectId `_id`, and no two share one. */
  ghost predicate Keyed(docs: seq<Doc>) {
    && (forall i :: 0 <= i < |docs| ==> "_id" in docs[i] && docs[i]["_id"].Id?)
    && (forall i, j :: 0 <= i < j < |docs| ==> docs[i]["_id"] != docs[j]["_id"])
  }

  /** Appending a document under a fresh ObjectId keeps the collection keyed. */
  lemma {:induction false} KeyedAppend(docs: seq<Doc>, d: Doc)
    requires Keyed(docs)
    requires "_id" in d && d["_id"].Id? && d["_id"] !in IdsOf(docs)
    ensures Keyed(docs + [d])
    ensures IdsOf(docs + [d]) == IdsOf(docs) + {d["_id"]}
  {
    var e := docs + [d];
    forall i, j | 0 <= i < j < |e| ensures e[i]["_id"] != e[j]["_id"] {
      if j == |docs| { assert e[i]["_id"] in IdsOf(docs); }
    }
    assert IdsOf(e) == IdsOf(docs) + {d["_id"]} by {
      forall x | x in IdsOf(e) ensures x in IdsOf(docs) + {d["_id"]} {
        var i :| 0 <= i < |e| && "_id" in e[i] && e[i]["_id"] == x;
        if i < |docs| { assert docs[i] == e[i]; }
      }
      forall x | x in IdsOf(docs) ensures x in IdsOf(e) {
        var i :| 0 <= i < |docs| && "_id" in docs[i] && docs[i]["_id"] == x;
        assert e[i] == docs[i];
      }
      assert e[|docs|] == d;
    }
  }

  /** `{$set: upd}`: the listed fields take the new values, every other field is kept. */
  function SetFields(d: Doc, upd: Doc): (r: Doc)
    ensures r.Keys == d.Keys + upd.Keys
    ensures forall k :: k in upd ==> r[k] == upd[k]
    ensures forall k :: k in d && k !in upd ==> r[k] == d[k]
  {
    d + upd
  }

  /** `updateOne({k: v}, {$set: upd})`: the first matching document gets the new fields. */
  function UpdateOne(docs: seq<Doc>, k: string, v: Value, upd: Doc): (r: seq<Doc>)
    ensures |r| == |docs|
  {
    if docs == [] then []
    else if FieldMatches(docs[0], k, v) then [SetFields(docs[0], upd)] + docs[1..]
    else [docs[0]] + UpdateOne(docs[1..], k, v, upd)
  }

  /** When no document matches, `updateOne` changes nothing. */
  lemma {:induction false} UpdateOneNoMatch(docs: seq<Doc>, k: string, v: Value, upd: Doc)
    requires FindOne(docs, k, v).None?
    ensures UpdateOne(docs, k, v, upd) == docs
  {
    if docs != [] {
      assert FindOne(docs[1..], k, v).None?;
      UpdateOneNoMatch(docs[1..], k, v, upd);
      assert docs == [docs[0]] + docs[1..];
    }
  }

  /** Re-reading by the same filter (which `$set` does not touch) finds the merged document. */
  lemma {:induction false} UpdateOneReread(docs: seq<Doc>, k: string, v: Value, upd: Doc)
    requires k !in upd
    requires FindOne(docs, k, v).Some?
    ensures FindOne(UpdateOne(docs, k, v, upd), k, v) == Some(SetFields(FindOne(docs, k, v).value, upd))
  {
    if !FieldMatches(docs[0], k, v) {
      UpdateOneReread(docs[1..], k, v, upd);
      var r := UpdateOne(docs, k, v, upd);
      assert r[0] == docs[0] && r[1..] == UpdateOne(docs[1..], k, v, upd);
    }
  }

  /** Every document is either untouched or is a matching one with the new fields merged in. */
  lemma {:induction false} UpdateOnePointwise(docs: seq<Doc>, k: string, v: Value, upd: Doc, i: nat)
    requires i < |docs|
    ensures var r := UpdateOne(docs, k, v, upd);
      r[i] == docs[i] || (FieldMatches(docs[i], k, v) && r[i] == SetFields(docs[i], upd))
  {
    if i > 0 && !FieldMatches(docs[0], k, v) {
      UpdateOnePointwise(docs[1..], k, v, upd, i - 1);
    }
  }

  /** In a keyed collection, updating by `_id` changes exactly the record with that id. */
  lemma {:induction false} UpdateByIdAt(docs: seq<Doc>, v: Value, upd: Doc, i: nat)
    requires Keyed(docs) && i < |docs|
    ensures UpdateOne(docs, "_id", v, upd)[i] == if docs[i]["_id"] == v then SetFields(docs[i], upd) else docs[i]
  {
    if !FieldMatches(docs[0], "_id", v) && i > 0 {
      assert Keyed(docs[1..]) by {
        forall a, b | 0 <= a < b < |docs[1..]| ensures docs[1..][a]["_id"] != docs[1..][b]["_id"] {
          assert docs[1..][a] == docs[a + 1] && docs[1..][b] == docs[b + 1];
        }
      }
      UpdateByIdAt(docs[1..], v, upd, i - 1);
    }
  }

  /** A `$set` that leaves `_id` alone keeps the collection keyed. */
  lemma {:induction false} UpdateOneKeyed(docs: seq<Doc>, k: string, v: Value, upd: Doc)
    requires Keyed(docs) && "_id" !in upd
    ensures Keyed(UpdateOne(docs, k, v, upd))
    ensures IdsOf(UpdateOne(docs, k, v, upd)) == IdsOf(docs)
  {
    var r := UpdateOne(docs, k, v, upd);
    forall i | 0 <= i < |docs| ensures "_id" in r[i] && r[i]["_id"] == docs[i]["_id"] {
      UpdateOnePointwise(docs, k, v, upd, i);
    }
    assert IdsOf(r) == IdsOf(docs) by {
      forall x | x in IdsOf(r) ensures x in IdsOf(docs) {
        var i :| 0 <= i < |r| && "_id" in r[i] && r[i]["_id"] == x;
      }
      forall x | x in IdsOf(docs) ensures x in IdsOf(r) {
        var i :| 0 <= i < |docs| && "_id" in docs[i] && docs[i]["_id"] == x;
        assert r[i]["_id"] == x;
      }
    }
  }

  /** The sort key of `.sort({k: -1})`: dates by their stamp; any other or missing value below every date. */
  function SortKey(d: Doc, k: string): int {
    if k in d && d[k].Date? then d[k].stamp else -1
  }

  ghost predicate SortedDesc(docs: seq<Doc>, k: string) {
    forall i, j :: 0 <= i < j < |docs| ==> SortKey(docs[i], k) >= SortKey(docs[j], k)
  }

  function InsertDesc(d: Doc, docs: seq<Doc>, k: string): (r: seq<Doc>)
    requires SortedDesc(docs, k)
    ensures SortedDesc(r, k)
    ensures |r| == |docs| + 1
    ensures forall i :: 0 <= i < |r| ==> SortKey(r[i], k) <= Bound(d, docs, k)
  {
    if docs == [] || SortKey(docs[0], k) <= SortKey(d, k) then
      [d] + docs
    else
      var rest := InsertDesc(d, docs[1..], k);
      assert docs == [docs[0]] + docs[1..];
      assert Bound(d, docs[1..], k) <= SortKey(docs[0], k);
      [docs[0]] + rest
  }

  /** The largest key among `d` and the sorted `docs`. */
  function Bound(d: Doc, docs: seq<Doc>, k: string): int {
    if docs == [] then SortKey(d, k) else Max(SortKey(d, k), SortKey(docs[0], k))
  }

  function Max(a: int, b: int): int { if a < b then b else a }

  lemma {:induction false} InsertDescPermutes(d: Doc, docs: seq<Doc>, k: string)
    requires SortedDesc(docs, k)
    ensures multiset(InsertDesc(d, docs, k)) == multiset(docs) + multiset{d}
  {
    if docs != [] && SortKey(docs[0], k) > SortKey(d, k) {
      InsertDescPermutes(d, docs[1..], k);
      assert docs == [docs[0]] + docs[1..];
    }
  }

  /** `.sort({k: -1})`: newest first; MongoDB leaves the order of equal keys open, and this model picks one. */
  function SortDesc(docs: seq<Doc>, k: string): (r: seq<Doc>)
    ensures SortedDesc(r, k)
    ensures |r| == |docs|
  {
    if docs == [] then [] else InsertDesc(docs[0], SortDesc(docs[1..], k), k)
  }

  /** Sorting neither adds nor loses documents. */
  lemma {:induction false} SortDescPermutes(docs: seq<Doc>, k: string)
    ensures multiset(SortDesc(docs, k)) == multiset(docs)
  {
    if docs != [] {
      SortDescPermutes(docs[1..], k);
      InsertDescPermutes(docs[0], SortDesc(docs[1..], k), k);
      assert docs == [docs[0]] + docs[1..];
    }
  }
}
