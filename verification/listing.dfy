/**
 * Listing a table newest first: the `orderBy: { createdAt: 'desc' }` of the
 * list queries. Entries are keyed by id; `stamp` gives an entry's creation time.
 */
module Listing {

  /** The creation time of every entry, by id. */
  function Stamps<T>(m: map<nat, T>, stamp: T -> nat): map<nat, nat> {
    map k | k in m :: stamp(m[k])
  }

  /** No two entries were created at the same time, so newest-first is a total order. */
  predicate Distinct(stamps: map<nat, nat>) {
    forall i, j :: i in stamps && j in stamps && i != j ==> stamps[i] != stamps[j]
  }

  /** Every non-empty set of ids has one created no earlier than the others. */
  lemma {:induction false} LatestExists(stamps: map<nat, nat>, ids: set<nat>)
    requires ids != {} && ids <= stamps.Keys
    ensures exists k :: k in ids && forall j :: j in ids ==> stamps[j] <= stamps[k]
    decreases ids
  {
    var k0 :| k0 in ids;
    var rest := ids - {k0};
    if rest == {} {
      assert ids == {k0};
      assert forall j :: j in ids ==> stamps[j] <= stamps[k0];
    } else {
      LatestExists(stamps, rest);
      var k1 :| k1 in rest && forall j :: j in rest ==> stamps[j] <= stamps[k1];
      var k := if stamps[k1] <= stamps[k0] then k0 else k1;
      assert forall j :: j in ids ==> stamps[j] <= stamps[k] by {
        forall j | j in ids ensures stamps[j] <= stamps[k] {
          if j != k0 { assert j in rest; }
        }
      }
    }
  }

  /** The most recently created of `ids`. */
  function Latest(stamps: map<nat, nat>, ids: set<nat>): (k: nat)
    requires ids != {} && ids <= stamps.Keys && Distinct(stamps)
    ensures k in ids && forall j :: j in ids && j != k ==> stamps[j] < stamps[k]
  {
    LatestExists(stamps, ids);
    var k :| k in ids && forall j :: j in ids ==> stamps[j] <= stamps[k];
    k
  }

  /** All of `ids`, each once, most recently created first. */
  function NewestFirst(stamps: map<nat, nat>, ids: set<nat>): (r: seq<nat>)
    requires ids <= stamps.Keys && Distinct(stamps)
    ensures forall i :: 0 <= i < |r| ==> r[i] in ids
    ensures forall k :: k in ids ==> k in r
    ensures forall i, j :: 0 <= i < j < |r| ==> stamps[r[i]] > stamps[r[j]]
    decreases ids
  {
    if ids == {} then []
    else
      var k := Latest(stamps, ids);
      var tail := NewestFirst(stamps, ids - {k});
      PrependLatest(stamps, ids, k, tail);
      [k] + tail
  }

  /** Putting the latest id in front of the others, newest first, lists all of them newest first. */
  lemma PrependLatest(stamps: map<nat, nat>, ids: set<nat>, k: nat, tail: seq<nat>)
    requires ids <= stamps.Keys && k in ids
    requires forall j :: j in ids && j != k ==> stamps[j] < stamps[k]
    requires forall i :: 0 <= i < |tail| ==> tail[i] in ids - {k}
    requires forall j :: j in ids - {k} ==> j in tail
    requires forall i, j :: 0 <= i < j < |tail| ==> stamps[tail[i]] > stamps[tail[j]]
    ensures var r := [k] + tail;
      && (forall i :: 0 <= i < |r| ==> r[i] in ids)
      && (forall j :: j in ids ==> j in r)
      && (forall i, j :: 0 <= i < j < |r| ==> stamps[r[i]] > stamps[r[j]])
  {
  }

  /** The entries of `m`, each once, newest first. */
  function ByCreatedAtDesc<T(==)>(m: map<nat, T>, stamp: T -> nat): (r: seq<T>)
    requires Distinct(Stamps(m, stamp))
    ensures forall i :: 0 <= i < |r| ==> r[i] in m.Values
    ensures forall k :: k in m ==> m[k] in r
    ensures forall i, j :: 0 <= i < j < |r| ==> stamp(r[i]) > stamp(r[j])
  {
    var ids := NewestFirst(Stamps(m, stamp), m.Keys);
    var r := seq(|ids|, i requires 0 <= i < |ids| => m[ids[i]]);
    EntriesOfIds(m, stamp, ids, r);
    r
  }

  /** Looking up ids listed newest first gives the entries newest first. */
  lemma EntriesOfIds<T>(m: map<nat, T>, stamp: T -> nat, ids: seq<nat>, r: seq<T>)
    requires forall i :: 0 <= i < |ids| ==> ids[i] in m
    requires forall k :: k in m ==> k in ids
    requires forall i, j :: 0 <= i < j < |ids| ==> stamp(m[ids[i]]) > stamp(m[ids[j]])
    requires |r| == |ids| && forall i :: 0 <= i < |ids| ==> r[i] == m[ids[i]]
    ensures forall i :: 0 <= i < |r| ==> r[i] in m.Values
    ensures forall k :: k in m ==> m[k] in r
    ensures forall i, j :: 0 <= i < j < |r| ==> stamp(r[i]) > stamp(r[j])
  {
  }
}
