/** The `tracked_users` collection (ScratchNotifyMe.py:10) held in memory: a sequence of
    documents in insertion order, and the operations of the database client the bot calls
    on it. Queries filter on field equality; `update_one` and `delete_one` act on the first
    document that matches, as the database does. */
module Store {

  import opened Wrappers

  /** One tracked (identifier, username) pair. `known` is the `known_projects` array read
      as a set, which is the only way the bot ever reads it. */
  datatype Doc = Doc(identifier: string, username: string, isDm: bool, known: set<int>)

  /** The pair every query and update of the bot filters on. */
  function Key(d: Doc): (string, string) {
    (d.identifier, d.username)
  }

  predicate Matches(d: Doc, identifier: string, username: string) {
    d.identifier == identifier && d.username == username
  }

  /** No two documents share an (identifier, username) pair. */
  predicate UniqueKeys(docs: seq<Doc>) {
    forall i, j :: 0 <= i < j < |docs| ==> Key(docs[i]) != Key(docs[j])
  }

  predicate Tracked(docs: seq<Doc>, identifier: string, username: string) {
    exists k :: 0 <= k < |docs| && Matches(docs[k], identifier, username)
  }

  /** The keys present in a sequence of documents. */
  function Keys(docs: seq<Doc>): set<(string, string)> {
    set d | d in docs :: Key(d)
  }

  /** The position of the first document matching the filter, if any. */
  function FindIndex(docs: seq<Doc>, identifier: string, username: string): (r: Option<nat>)
    ensures r.None? <==> !Tracked(docs, identifier, username)
    ensures r.Some? ==> r.value < |docs| && Matches(docs[r.value], identifier, username)
    ensures r.Some? ==> forall k :: 0 <= k < r.value ==> !Matches(docs[k], identifier, username)
  {
    if docs == [] then None
    else if Matches(docs[0], identifier, username) then Some(0)
    else
      match FindIndex(docs[1..], identifier, username)
      case None =>
        assert forall k :: 1 <= k < |docs| ==> docs[k] == docs[1..][k - 1];
        None
      case Some(i) =>
        assert forall k :: 1 <= k < |docs| ==> docs[k] == docs[1..][k - 1];
        Some(i + 1)
  }

  /** With unique keys, a document is the one the filter on its own key finds. */
  lemma FindIndexOfKey(docs: seq<Doc>, i: nat)
    requires UniqueKeys(docs) && i < |docs|
    ensures FindIndex(docs, docs[i].identifier, docs[i].username) == Some(i)
  {
  }

  /** Replacing a document by one with the same key keeps the keys unique. */
  lemma ReplaceKeepsUniqueKeys(docs: seq<Doc>, i: nat, d: Doc)
    requires UniqueKeys(docs) && i < |docs| && Key(d) == Key(docs[i])
    ensures UniqueKeys(docs[i := d])
  {
    var docs' := docs[i := d];
    forall a, b | 0 <= a < b < |docs'| ensures Key(docs'[a]) != Key(docs'[b]) {
      assert Key(docs'[a]) == Key(docs[a]) && Key(docs'[b]) == Key(docs[b]);
    }
  }

  /** Removing one document keeps the keys unique. */
  lemma RemoveKeepsUniqueKeys(docs: seq<Doc>, i: nat)
    requires UniqueKeys(docs) && i < |docs|
    ensures UniqueKeys(docs[..i] + docs[i + 1..])
  {
    var docs' := docs[..i] + docs[i + 1..];
    forall a, b | 0 <= a < b < |docs'| ensures Key(docs'[a]) != Key(docs'[b]) {
      var a0 := if a < i then a else a + 1;
      var b0 := if b < i then b else b + 1;
      assert docs'[a] == docs[a0] && docs'[b] == docs[b0];
    }
  }

  /** With unique keys, removing the document the filter finds removes exactly the
      documents that match it, and nothing matches afterwards. */
  lemma RemoveMatching(docs: seq<Doc>, identifier: string, username: string, i: nat)
    requires UniqueKeys(docs) && FindIndex(docs, identifier, username) == Some(i)
    ensures UniqueKeys(docs[..i] + docs[i + 1..])
    ensures forall d :: d in docs[..i] + docs[i + 1..] <==> d in docs && !Matches(d, identifier, username)
    ensures !Tracked(docs[..i] + docs[i + 1..], identifier, username)
  {
    var docs' := docs[..i] + docs[i + 1..];
    RemoveKeepsUniqueKeys(docs, i);
    forall d | d in docs' ensures d in docs && !Matches(d, identifier, username) {
      var a :| 0 <= a < |docs'| && docs'[a] == d;
      RemovedIndex(docs, i, a);
    }
    forall d | d in docs && !Matches(d, identifier, username) ensures d in docs' {
      var a0 :| 0 <= a0 < |docs| && docs[a0] == d;
      RemovedIndex(docs, i, if a0 < i then a0 else a0 - 1);
    }
    forall k | 0 <= k < |docs'| ensures !Matches(docs'[k], identifier, username) {
      assert docs'[k] in docs';
    }
  }

  /** Where a document of the shortened sequence sat before the removal. */
  lemma RemovedIndex(docs: seq<Doc>, i: nat, a: nat)
    requires i < |docs| && a < |docs| - 1
    ensures (docs[..i] + docs[i + 1..])[a] == docs[if a < i then a else a + 1]
  {
  }

  /** `find({"identifier": identifier})`: the matching documents, in collection order. */
  function WithIdentifier(docs: seq<Doc>, identifier: string): (r: seq<Doc>)
    ensures |r| <= |docs|
    ensures forall d :: d in r <==> d in docs && d.identifier == identifier
    ensures UniqueKeys(docs) ==> UniqueKeys(r)
  {
    if docs == [] then []
    else
      var rest := WithIdentifier(docs[1..], identifier);
      var r := if docs[0].identifier == identifier then [docs[0]] + rest else rest;
      assert UniqueKeys(docs) ==> UniqueKeys(r) by {
        if UniqueKeys(docs) {
          assert UniqueKeys(docs[1..]) by {
            forall a, b | 0 <= a < b < |docs[1..]| ensures Key(docs[1..][a]) != Key(docs[1..][b]) {
              assert docs[1..][a] == docs[a + 1] && docs[1..][b] == docs[b + 1];
            }
          }
          forall m | 0 <= m < |rest| ensures Key(rest[m]) != Key(docs[0]) {
            assert rest[m] in docs[1..];
            var j :| 0 <= j < |docs[1..]| && docs[1..][j] == rest[m];
            assert docs[j + 1] == rest[m];
          }
        }
      }
      r
  }

  /** `distinct("identifier")`: every identifier in the collection, once each, in order
      of first appearance. */
  function Identifiers(docs: seq<Doc>): (ids: seq<string>)
    ensures forall x :: x in ids <==> exists d :: d in docs && d.identifier == x
    ensures forall a, b :: 0 <= a < b < |ids| ==> ids[a] != ids[b]
  {
    if docs == [] then []
    else
      var init := docs[..|docs| - 1];
      var last := docs[|docs| - 1];
      var rest := Identifiers(init);
      assert forall d :: d in docs <==> d in init || d == last by {
        assert docs == init + [last];
      }
      if last.identifier in rest then rest else rest + [last.identifier]
  }

  /** The collection as the bot's process sees it. */
  class TrackedUsers {
    var docs: seq<Doc>

    /** The bot never inserts a pair that is already present. */
    ghost predicate Valid()
      reads this
    {
      UniqueKeys(docs)
    }

    constructor ()
      ensures Valid() && docs == []
    {
      docs := [];
    }

    /** `find_one({"identifier": identifier, "username": username})`. */
    method FindOne(identifier: string, username: string) returns (found: Option<Doc>)
      ensures found.Some? <==> Tracked(docs, identifier, username)
      ensures found.Some? ==> found.value in docs && Matches(found.value, identifier, username)
    {
      var i := FindIndex(docs, identifier, username);
      found := if i.Some? then Some(docs[i.value]) else None;
    }

    /** `insert_one(doc)`: appends without checking for an existing pair. */
    method InsertOne(d: Doc)
      modifies this
      ensures docs == old(docs) + [d]
    {
      docs := docs + [d];
    }

    /** `delete_one(filter)`: removes the first matching document and reports how many
        were deleted. */
    method DeleteOne(identifier: string, username: string) returns (deletedCount: nat)
      modifies this
      ensures deletedCount <= 1
      ensures match FindIndex(old(docs), identifier, username)
        case None => deletedCount == 0 && docs == old(docs)
        case Some(i) => deletedCount == 1 && docs == old(docs)[..i] + old(docs)[i + 1..]
    {
      var i := FindIndex(docs, identifier, username);
      match i {
        case None =>
          deletedCount := 0;
        case Some(k) =>
          docs := docs[..k] + docs[k + 1..];
          deletedCount := 1;
      }
    }

    /** `find({"identifier": identifier})`, read to the end. */
    method Find(identifier: string) returns (entries: seq<Doc>)
      ensures forall d :: d in entries <==> d in docs && d.identifier == identifier
      ensures |entries| <= |docs|
      ensures Valid() ==> UniqueKeys(entries)
      ensures entries == WithIdentifier(docs, identifier)
    {
      entries := WithIdentifier(docs, identifier);
    }

    /** `distinct("identifier")`. */
    method Distinct() returns (ids: seq<string>)
      ensures forall x :: x in ids <==> exists d :: d in docs && d.identifier == x
      ensures forall a, b :: 0 <= a < b < |ids| ==> ids[a] != ids[b]
      ensures ids == Identifiers(docs)
    {
      ids := Identifiers(docs);
    }

    /** `update_one(filter, {"$pull": {"known_projects": {"$in": ids}}})`. */
    method UpdatePull(identifier: string, username: string, ids: set<int>)
      modifies this
      ensures match FindIndex(old(docs), identifier, username)
        case None => docs == old(docs)
        case Some(i) => docs == old(docs)[i := old(docs)[i].(known := old(docs)[i].known - ids)]
    {
      var i := FindIndex(docs, identifier, username);
      if i.Some? {
        docs := docs[i.value := docs[i.value].(known := docs[i.value].known - ids)];
      }
    }

    /** `update_one(filter, {"$addToSet": {"known_projects": id}})`. */
    method UpdateAddToSet(identifier: string, username: string, id: int)
      modifies this
      ensures match FindIndex(old(docs), identifier, username)
        case None => docs == old(docs)
        case Some(i) => docs == old(docs)[i := old(docs)[i].(known := old(docs)[i].known + {id})]
    {
      var i := FindIndex(docs, identifier, username);
      if i.Some? {
        docs := docs[i.value := docs[i.value].(known := docs[i.value].known + {id})];
      }
    }
  }
}
