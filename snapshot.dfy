/** The meaning of the point-in-time aggregation run by the vector resolver:
    `$match`, then `$sort: {createdAt: -1}`, `$group: {_id: "$id", doc: {$first: "$$ROOT"}}`
    and `$replaceRoot: {newRoot: "$doc"}`. The `$match` stage is an abstract predicate
    here; the result is specified without an order, since `$group` promises none. */
module Snapshot {
  import opened Wrappers
  import opened Json

  const IdKey: string := "id"
  const CreatedAtKey: string := "createdAt"

  /** `"$id"`: a document's logical identity; a document without `id` groups under null. */
  function IdOf(d: Json): Json
  {
    Index(d, IdKey)
  }

  /** A stored version: an object whose `createdAt` is a date. */
  predicate IsVersion(d: Json)
  {
    d.Object? && CreatedAtKey in d.fields && d.fields[CreatedAtKey].DateTime?
  }

  function CreatedAt(d: Json): int
    requires IsVersion(d)
  {
    d.fields[CreatedAtKey].millis
  }

  ghost predicate AllVersions(coll: seq<Json>)
  {
    forall d :: d in coll ==> IsVersion(d)
  }

  /** The collection's invariant: no two versions of one id share a `createdAt`. */
  ghost predicate DistinctStamps(coll: seq<Json>)
    requires AllVersions(coll)
  {
    forall d1, d2 :: d1 in coll && d2 in coll && IdOf(d1) == IdOf(d2) && CreatedAt(d1) == CreatedAt(d2)
      ==> d1 == d2
  }

  ghost predicate DistinctIds(s: seq<Json>)
  {
    forall i, j :: 0 <= i < j < |s| ==> IdOf(s[i]) != IdOf(s[j])
  }

  /** `x` is the newest matched version of its id. */
  ghost predicate IsLatest(matches: Json -> bool, coll: seq<Json>, x: Json)
    requires AllVersions(coll) && x in coll
  {
    forall d :: d in coll && matches(d) && IdOf(d) == IdOf(x) ==> CreatedAt(d) <= CreatedAt(x)
  }

  /** Some document of `r` has the id of `d`. */
  ghost predicate Represented(r: seq<Json>, d: Json)
  {
    exists x :: x in r && IdOf(x) == IdOf(d)
  }

  /** What the four stages return, up to order: matched versions only, at most one per
      id, each the newest matched version of its id, and every id with a matched
      version represented. */
  ghost predicate IsSnapshot(matches: Json -> bool, coll: seq<Json>, r: seq<Json>)
    requires AllVersions(coll)
  {
    && (forall x :: x in r ==> x in coll && matches(x))
    && DistinctIds(r)
    && (forall x :: x in r ==> IsLatest(matches, coll, x))
    && (forall d {:trigger Represented(r, d)} :: d in coll && matches(d) ==> Represented(r, d))
  }

  // ---------------------------------------------------------------------------
  // One admissible result: newest matched version per id, in order of first match

  /** The position in `acc` of the document with the given id, if any. */
  function IdIndex(acc: seq<Json>, id: Json): (r: Option<nat>)
    ensures r.Some? ==> r.value < |acc| && IdOf(acc[r.value]) == id
    ensures r.None? ==> forall x :: x in acc ==> IdOf(x) != id
  {
    if acc == [] then None
    else if IdOf(acc[0]) == id then Some(0)
    else match IdIndex(acc[1..], id)
      case None => None
      case Some(j) => Some(j + 1)
  }

  /** Takes one more matched version into account. */
  function Admit(acc: seq<Json>, d: Json): seq<Json>
    requires IsVersion(d) && forall x :: x in acc ==> IsVersion(x)
  {
    match IdIndex(acc, IdOf(d))
    case None => acc + [d]
    case Some(j) => if CreatedAt(d) > CreatedAt(acc[j]) then acc[j := d] else acc
  }

  function LatestPerId(matches: Json -> bool, coll: seq<Json>): (r: seq<Json>)
    requires AllVersions(coll)
    ensures forall x :: x in r ==> x in coll && matches(x)
  {
    if coll == [] then []
    else
      var prefix, d := coll[..|coll| - 1], coll[|coll| - 1];
      assert coll == prefix + [d];
      var acc := LatestPerId(matches, prefix);
      if matches(d) then Admit(acc, d) else acc
  }

  /** When no document of `acc` has `d`'s id, no matched version of `s` has it either. */
  lemma NoOtherVersion(matches: Json -> bool, s: seq<Json>, acc: seq<Json>, d: Json)
    requires AllVersions(s) && IsSnapshot(matches, s, acc)
    requires IdIndex(acc, IdOf(d)).None?
    ensures forall e :: e in s && matches(e) ==> IdOf(e) != IdOf(d)
  {
    forall e | e in s && matches(e) ensures IdOf(e) != IdOf(d) {
      assert Represented(acc, e);
    }
  }

  lemma AdmitNew(matches: Json -> bool, s: seq<Json>, acc: seq<Json>, d: Json)
    requires AllVersions(s) && IsVersion(d) && matches(d)
    requires IsSnapshot(matches, s, acc)
    requires IdIndex(acc, IdOf(d)).None?
    ensures IsSnapshot(matches, s + [d], acc + [d])
  {
    var s', r := s + [d], acc + [d];
    forall i, j | 0 <= i < j < |r| ensures IdOf(r[i]) != IdOf(r[j]) {
      if j == |acc| {
        assert r[i] in acc;
      } else {
        assert r[i] == acc[i] && r[j] == acc[j];
      }
    }
    NoOtherVersion(matches, s, acc, d);
    forall x | x in acc ensures IsLatest(matches, s', x) {
      assert IsLatest(matches, s, x);
    }
    assert IsLatest(matches, s', d);
    forall e | e in s' && matches(e) ensures Represented(r, e) {
      if e == d {
        assert r[|acc|] == d;
      } else {
        assert e in s;
        assert Represented(acc, e);
        var y :| y in acc && IdOf(y) == IdOf(e);
        assert y in r;
      }
    }
  }

  lemma AdmitReplace(matches: Json -> bool, s: seq<Json>, acc: seq<Json>, d: Json, j: nat)
    requires AllVersions(s) && IsVersion(d) && matches(d)
    requires IsSnapshot(matches, s, acc)
    requires j < |acc| && IdOf(acc[j]) == IdOf(d) && CreatedAt(d) > CreatedAt(acc[j])
    ensures IsSnapshot(matches, s + [d], acc[j := d])
  {
    var s', r := s + [d], acc[j := d];
    assert forall i :: 0 <= i < |r| ==> IdOf(r[i]) == IdOf(acc[i]);
    forall i | 0 <= i < |r| ensures IsLatest(matches, s', r[i]) {
      forall e | e in s' && matches(e) && IdOf(e) == IdOf(r[i]) ensures CreatedAt(e) <= CreatedAt(r[i]) {
        if i == j {
          if e != d {
            assert e in s;
            assert IsLatest(matches, s, acc[j]);
          }
        } else {
          assert r[i] == acc[i];
          if e == d {
            assert false;
          } else {
            assert e in s;
            assert IsLatest(matches, s, acc[i]);
          }
        }
      }
    }
    forall e | e in s' && matches(e) ensures Represented(r, e) {
      if e == d {
        assert r[j] in r;
      } else {
        assert e in s;
        assert Represented(acc, e);
        var y :| y in acc && IdOf(y) == IdOf(e);
        var i :| 0 <= i < |acc| && acc[i] == y;
        assert r[i] in r;
      }
    }
  }

  lemma AdmitKeep(matches: Json -> bool, s: seq<Json>, acc: seq<Json>, d: Json, j: nat)
    requires AllVersions(s) && IsVersion(d) && matches(d)
    requires IsSnapshot(matches, s, acc)
    requires j < |acc| && IdOf(acc[j]) == IdOf(d) && CreatedAt(d) <= CreatedAt(acc[j])
    ensures IsSnapshot(matches, s + [d], acc)
  {
    var s' := s + [d];
    forall i | 0 <= i < |acc| ensures IsLatest(matches, s', acc[i]) {
      forall e | e in s' && matches(e) && IdOf(e) == IdOf(acc[i]) ensures CreatedAt(e) <= CreatedAt(acc[i]) {
        if e == d {
          if i != j {
            assert false;
          }
        } else {
          assert e in s;
          assert IsLatest(matches, s, acc[i]);
        }
      }
    }
    forall e | e in s' && matches(e) ensures Represented(acc, e) {
      if e == d {
        assert acc[j] in acc;
      } else {
        assert e in s;
        assert Represented(acc, e);
      }
    }
  }

  lemma SkipKeepsSnapshot(matches: Json -> bool, s: seq<Json>, acc: seq<Json>, d: Json)
    requires AllVersions(s) && IsVersion(d) && !matches(d)
    requires IsSnapshot(matches, s, acc)
    ensures IsSnapshot(matches, s + [d], acc)
  {
    var s' := s + [d];
    forall x | x in acc ensures IsLatest(matches, s', x) {
      assert IsLatest(matches, s, x);
    }
  }

  /** The newest-per-id computation is an admissible result of the four stages. */
  lemma {:induction false} LatestPerIdIsSnapshot(matches: Json -> bool, coll: seq<Json>)
    requires AllVersions(coll)
    ensures IsSnapshot(matches, coll, LatestPerId(matches, coll))
    decreases |coll|
  {
    if coll != [] {
      var prefix, d := coll[..|coll| - 1], coll[|coll| - 1];
      assert coll == prefix + [d];
      LatestPerIdIsSnapshot(matches, prefix);
      var acc := LatestPerId(matches, prefix);
      if matches(d) {
        match IdIndex(acc, IdOf(d))
        case None => AdmitNew(matches, prefix, acc, d);
        case Some(j) =>
          if CreatedAt(d) > CreatedAt(acc[j]) {
            AdmitReplace(matches, prefix, acc, d, j);
          } else {
            AdmitKeep(matches, prefix, acc, d, j);
          }
      } else {
        SkipKeepsSnapshot(matches, prefix, acc, d);
      }
    }
  }

  // ---------------------------------------------------------------------------
  // The result is determined up to order

  lemma SnapshotIncluded(matches: Json -> bool, coll: seq<Json>, r1: seq<Json>, r2: seq<Json>)
    requires AllVersions(coll) && DistinctStamps(coll)
    requires IsSnapshot(matches, coll, r1) && IsSnapshot(matches, coll, r2)
    ensures forall x :: x in r1 ==> x in r2
  {
    forall x | x in r1 ensures x in r2 {
      assert Represented(r2, x);
      var y :| y in r2 && IdOf(y) == IdOf(x);
      assert IsLatest(matches, coll, x);
      assert IsLatest(matches, coll, y);
    }
  }

  /** With distinct `createdAt` per id, any two results of the stages over the same
      collection hold the same documents: the snapshot is unique up to order. */
  lemma SnapshotUnique(matches: Json -> bool, coll: seq<Json>, r1: seq<Json>, r2: seq<Json>)
    requires AllVersions(coll) && DistinctStamps(coll)
    requires IsSnapshot(matches, coll, r1) && IsSnapshot(matches, coll, r2)
    ensures forall x :: x in r1 <==> x in r2
  {
    SnapshotIncluded(matches, coll, r1, r2);
    SnapshotIncluded(matches, coll, r2, r1);
  }
}
