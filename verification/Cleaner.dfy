/**
 The MongoDB cleaner: of every log collection, delete the documents older than the expiry in batches. A batch
 is found by skipping `deleteOneBatch` expired documents and deleting everything below the one found.
 */
module Cleaner {
  /** A collection by its document ids, which ascend with the time of insertion. */
  type Collection = set<nat>

  function Expired(docs: Collection, expiry: nat): Collection {
    set id | id in docs && id < expiry
  }

  function Below(docs: Collection, id: nat): Collection {
    set d | d in docs && d < id
  }

  /** `DeleteMany` of the ids below `id`. */
  function DeleteBelow(docs: Collection, id: nat): Collection {
    set d | d in docs && d >= id
  }

  // ----- Safety, for any order of the documents and any failures -----

  /** One turn of the loop on a live database: the query fails or finds nothing and the loop ends; or it finds
      some expired document, in whatever order the server keeps, and the deletion works, or fails when it has
      deleted any part of what it was to delete. Between turns others may insert documents. */
  datatype Turn = Delete(found: nat) | DeleteFailed(found: nat, gone: Collection) | Insert(id: nat)

  predicate Enabled(docs: Collection, expiry: nat, turn: Turn) {
    match turn
    case Delete(found) => found in Expired(docs, expiry)
    case DeleteFailed(found, gone) => found in Expired(docs, expiry) && gone <= Below(docs, found)
    case Insert(_) => true
  }

  function Apply(docs: Collection, turn: Turn): Collection {
    match turn
    case Delete(found) => DeleteBelow(docs, found)
    case DeleteFailed(_, gone) => docs - gone
    case Insert(id) => docs + {id}
  }

  predicate ValidTurns(docs: Collection, expiry: nat, turns: seq<Turn>)
    decreases |turns|
  {
    turns == [] || (Enabled(docs, expiry, turns[0]) && ValidTurns(Apply(docs, turns[0]), expiry, turns[1..]))
  }

  function ApplyAll(docs: Collection, turns: seq<Turn>): Collection
    decreases |turns|
  {
    if turns == [] then docs else ApplyAll(Apply(docs, turns[0]), turns[1..])
  }

  /** Nothing at or above the expiry is ever deleted, and of every collection that held an expired document one
      is left: the documents found are never themselves deleted in their turn. */
  lemma {:induction false} OnlyExpiredDeleted(docs: Collection, expiry: nat, turns: seq<Turn>)
    requires ValidTurns(docs, expiry, turns)
    ensures forall id :: id in docs && id !in ApplyAll(docs, turns) ==> id < expiry
    ensures Expired(docs, expiry) != {} ==> Expired(ApplyAll(docs, turns), expiry) != {}
    decreases |turns|
  {
    if turns != [] {
      var next := Apply(docs, turns[0]);
      if Expired(docs, expiry) != {} {
        var oldest :| oldest in Expired(docs, expiry);
        assert !turns[0].Insert? ==> turns[0].found in Expired(next, expiry);
        assert turns[0].Insert? ==> oldest in Expired(next, expiry);
      }
      OnlyExpiredDeleted(next, expiry, turns[1..]);
    }
  }

  // ----- The batch loop, on documents in id order -----

  /** `id` is the `n`-th, from 0, of the ids in ascending order. */
  predicate IsNth(docs: Collection, n: nat, id: nat) {
    id in docs && |Below(docs, id)| == n
  }

  lemma {:induction false} NthExists(docs: Collection, n: nat) returns (id: nat)
    requires n < |docs|
    ensures IsNth(docs, n, id)
    decreases |docs|
  {
    var top := Max(docs);
    if n == |docs| - 1 {
      id := top;
      assert Below(docs, top) == docs - {top};
    } else {
      id := NthExists(docs - {top}, n);
      assert Below(docs - {top}, id) == Below(docs, id);
    }
  }

  lemma {:induction false} Max(docs: Collection) returns (top: nat)
    requires docs != {}
    ensures top in docs && forall d :: d in docs ==> d <= top
    decreases |docs|
  {
    var d :| d in docs;
    if docs == {d} {
      top := d;
    } else {
      var rest := Max(docs - {d});
      top := if rest > d then rest else d;
      assert forall x :: x in docs ==> x == d || x in docs - {d};
    }
  }

  lemma NthUnique(docs: Collection, n: nat, a: nat, b: nat)
    requires IsNth(docs, n, a) && IsNth(docs, n, b)
    ensures a == b
  {
    if a < b {
      SubsetSmaller(Below(docs, a), Below(docs, b), a);
    } else if b < a {
      SubsetSmaller(Below(docs, b), Below(docs, a), b);
    }
  }

  lemma SubsetSmaller(a: Collection, b: Collection, x: nat)
    requires a <= b && x in b && x !in a
    ensures |a| < |b|
  {
    SubsetNotLarger(a, b - {x});
  }

  lemma {:induction false} SubsetNotLarger(a: Collection, b: Collection)
    requires a <= b
    ensures |a| <= |b|
    decreases |a|
  {
    if a != {} {
      var x :| x in a;
      SubsetNotLarger(a - {x}, b - {x});
    }
  }

  datatype Found = Document(id: nat) | NoDocuments | QueryFailed

  /** `FindOne` with the filter and a skip: the server refuses a negative skip. */
  method FindOne(docs: Collection, expiry: nat, skip: int) returns (found: Found)
    ensures found.QueryFailed? <==> skip < 0
    ensures found.NoDocuments? <==> 0 <= skip && |Expired(docs, expiry)| <= skip
    ensures found.Document? ==> 0 <= skip && IsNth(Expired(docs, expiry), skip, found.id)
  {
    if skip < 0 { return QueryFailed; }
    var expired := Expired(docs, expiry);
    if |expired| <= skip { return NoDocuments; }
    ghost var nth := NthExists(expired, skip);
    var id :| id in expired && |Below(expired, id)| == skip by { assert IsNth(expired, skip, nth); }
    return Document(id);
  }

  /** How many expired documents the loop leaves of `e`, with batches of `n`. */
  function Residue(e: nat, n: nat): nat
    requires n >= 1
  {
    if e <= n then e else 1 + (e - 1) % n
  }

  /** What is left of `e` after full batches only: all of it if it is at most a batch, and else from one to a batch. */
  lemma ResidueIs(e: nat, n: nat)
    requires n >= 1
    ensures var left := Residue(e, n);
      left <= e && (if e <= n then left == e else 1 <= left <= n) && exists turns: nat :: e == left + turns * n
  {
    var turns: nat := if e <= n then 0 else (e - 1) / n;
    assert e == Residue(e, n) + turns * n;
  }

  lemma ResidueStep(e: nat, n: nat)
    requires n >= 1 && e > n
    ensures Residue(e, n) == Residue(e - n, n)
  {
    assert (e - 1) % n == (e - 1 - n) % n by { ModStep(e - 1, n); }
    if e - n <= n {
      assert (e - n - 1) % n == e - n - 1;
    }
  }

  lemma ModStep(x: nat, n: nat)
    requires n >= 1 && x >= n
    ensures x % n == (x - n) % n
  {
    var q, r := x / n, x % n;
    assert x == q * n + r;
    Distribute(q, 1, n);
    DivUnique(x - n, n, q - 1, r);
  }

  lemma DivUnique(x: nat, n: nat, q: int, r: nat)
    requires n >= 1 && x == q * n + r && r < n
    ensures x % n == r
  {
    var q', r' := x / n, x % n;
    Distribute(q, q', n);
    Multiples(q - q', n, r' - r);
  }

  lemma Distribute(a: int, b: int, n: int)
    ensures (a - b) * n == a * n - b * n
  {}

  /** The only multiple of `n` between -n and n is 0. */
  lemma Multiples(k: int, n: int, d: int)
    requires n >= 1 && k * n == d && -n < d < n
    ensures d == 0
  {
    if k >= 1 {
      Distribute(k, 1, n);
    } else if k <= -1 {
      Distribute(-1, k, n);
    }
  }

  /** The newest of the expired documents, and everything that is not expired. */
  predicate KeepsNewest(docs: Collection, left: Collection, expiry: nat) {
    && left <= docs
    && (forall d :: d in docs && d >= expiry ==> d in left)
    && (forall a, b :: a in docs && b in docs && a < b && a in left ==> b in left)
  }

  /** Full batches went: all that was expired is still there if it was no more than a batch, and else from one
      document to a batch of them is left. */
  ghost predicate LeftOf(docs: Collection, left: Collection, expiry: nat, batch: nat) {
    var e, e' := |set id | id in docs && id < expiry|, |set id | id in left && id < expiry|;
    (if e <= batch then e' == e else 1 <= e' <= batch) && exists turns: nat :: e == e' + turns * batch
  }

  /** The loop over one collection. It ends exactly because each turn deletes a full batch; with a batch of 0 it
      would find the oldest document and delete nothing, for ever. A negative batch deletes nothing at all. */
  method CleanCollection(docs0: Collection, expiry: nat, deleteOneBatch: int) returns (docs: Collection)
    requires deleteOneBatch != 0 || Expired(docs0, expiry) == {}
    ensures KeepsNewest(docs0, docs, expiry)
    ensures deleteOneBatch > 0 ==> |Expired(docs, expiry)| == Residue(|Expired(docs0, expiry)|, deleteOneBatch)
    ensures deleteOneBatch > 0 ==> LeftOf(docs0, docs, expiry, deleteOneBatch)
    ensures deleteOneBatch <= 0 ==> docs == docs0
  {
    if deleteOneBatch > 0 { ResidueIs(|Expired(docs0, expiry)|, deleteOneBatch); }
    docs := docs0;
    while true
      invariant KeepsNewest(docs0, docs, expiry)
      invariant deleteOneBatch > 0 ==>
        Residue(|Expired(docs, expiry)|, deleteOneBatch) == Residue(|Expired(docs0, expiry)|, deleteOneBatch)
      invariant deleteOneBatch <= 0 ==> docs == docs0
      decreases |Expired(docs, expiry)|
    {
      var found := FindOne(docs, expiry, deleteOneBatch);
      if !found.Document? {
        break;
      }
      BatchDeleted(docs, expiry, deleteOneBatch, found.id);
      if deleteOneBatch > 0 {
        ResidueStep(|Expired(docs, expiry)|, deleteOneBatch);
      }
      docs := DeleteBelow(docs, found.id);
    }
  }

  /** One turn deletes exactly a batch of expired documents: none when the batch is 0. */
  lemma BatchDeleted(docs: Collection, expiry: nat, n: nat, id: nat)
    requires IsNth(Expired(docs, expiry), n, id)
    ensures |Expired(DeleteBelow(docs, id), expiry)| == |Expired(docs, expiry)| - n
    ensures DeleteBelow(docs, id) == docs <==> n == 0
  {
    var expired, gone := Expired(docs, expiry), Below(Expired(docs, expiry), id);
    assert Expired(DeleteBelow(docs, id), expiry) == expired - gone;
    assert |expired - gone| == |expired| - |gone|;
    if n == 0 {
      assert gone == {};
      assert forall d :: d in docs && d < id ==> d in gone;
      assert DeleteBelow(docs, id) == docs;
    } else {
      var d :| d in gone;
      assert d in docs && d !in DeleteBelow(docs, id);
    }
  }

  /** The loop makes progress from a collection with expired documents exactly when the batch is not 0; so the
      batch left unset in a configuration never ends on one. */
  lemma ProgressIff(docs: Collection, expiry: nat, n: nat)
    requires n < |Expired(docs, expiry)|
    ensures (forall id :: IsNth(Expired(docs, expiry), n, id) ==> DeleteBelow(docs, id) != docs) <==> n > 0
  {
    var id := NthExists(Expired(docs, expiry), n);
    BatchDeleted(docs, expiry, n, id);
    forall other | IsNth(Expired(docs, expiry), n, other)
      ensures other == id
    {
      NthUnique(Expired(docs, expiry), n, id, other);
    }
  }

  // ----- All collections -----

  const PREFIX := "http_logs_"

  predicate IsLog(name: string) {
    PREFIX <= name
  }

  /** What `Clean` makes of one log collection. */
  ghost predicate Cleaned(docs: Collection, left: Collection, expiry: nat, deleteOneBatch: int) {
    && KeepsNewest(docs, left, expiry)
    && (deleteOneBatch > 0 ==> LeftOf(docs, left, expiry, deleteOneBatch))
    && (deleteOneBatch <= 0 ==> left == docs)
  }

  /** `Clean`: the loop over the collections, in any order; the others are not touched. */
  method Clean(db: map<string, Collection>, expiry: nat, deleteOneBatch: int) returns (db': map<string, Collection>)
    requires deleteOneBatch != 0 || forall name :: name in db && IsLog(name) ==> Expired(db[name], expiry) == {}
    ensures db'.Keys == db.Keys
    ensures forall name :: name in db && !("http_logs_" <= name) ==> db'[name] == db[name]
    ensures forall name :: name in db && "http_logs_" <= name ==>
      Cleaned(db[name], db'[name], expiry, deleteOneBatch)
  {
    db' := db;
    var todo := db.Keys;
    while todo != {}
      invariant todo <= db.Keys && db'.Keys == db.Keys
      invariant forall name :: name in db && (name in todo || !IsLog(name)) ==> db'[name] == db[name]
      invariant forall name :: name in db && name !in todo && IsLog(name) ==>
        Cleaned(db[name], db'[name], expiry, deleteOneBatch)
    {
      var coll :| coll in todo;
      todo := todo - {coll};
      if !IsLog(coll) {
        continue;
      }
      var cleaned := CleanCollection(db'[coll], expiry, deleteOneBatch);
      db' := db'[coll := cleaned];
    }
  }
}
