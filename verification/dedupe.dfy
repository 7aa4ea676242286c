/** Deduplication of one adapter page (internal/ingest/dedupe.go). */
module Deduplication {
  import opened Readings

  /** Index i is the first row carrying its key. */
  predicate IsFirst(rows: seq<Reading>, i: nat)
    requires i < |rows|
  {
    forall j | 0 <= j < i :: KeyOf(rows[j]) != KeyOf(rows[i])
  }

  /** All rows of key k carry the same fourteen registers. */
  ghost predicate Agrees(rows: seq<Reading>, k: Key) {
    forall i, j :: 0 <= i < |rows| && 0 <= j < |rows| && KeyOf(rows[i]) == k && KeyOf(rows[j]) == k
      ==> rows[i].regs == rows[j].regs
  }

  /** A later copy of an agreed key: dropped without a rejection. */
  ghost predicate Redundant(rows: seq<Reading>, i: nat)
    requires i < |rows|
  {
    !IsFirst(rows, i) && Agrees(rows, KeyOf(rows[i]))
  }

  function FirstIndices(rows: seq<Reading>, n: nat): (idx: seq<nat>)
    requires n <= |rows|
    ensures forall t :: 0 <= t < |idx| ==> idx[t] < n
  {
    if n == 0 then []
    else
      var rest := FirstIndices(rows, n - 1);
      if IsFirst(rows, n - 1) then rest + [n - 1] else rest
  }

  /** The group of key k among the first n rows, in row order. */
  function IndicesOf(rows: seq<Reading>, k: Key, n: nat): (idx: seq<nat>)
    requires n <= |rows|
    ensures forall t :: 0 <= t < |idx| ==> idx[t] < n
  {
    if n == 0 then []
    else
      var rest := IndicesOf(rows, k, n - 1);
      if KeyOf(rows[n - 1]) == k then rest + [n - 1] else rest
  }

  lemma {:induction false} FirstIndicesMeaning(rows: seq<Reading>, n: nat)
    requires n <= |rows|
    ensures Increasing(FirstIndices(rows, n))
    ensures forall t :: 0 <= t < |FirstIndices(rows, n)| ==> IsFirst(rows, FirstIndices(rows, n)[t])
    ensures forall i :: 0 <= i < n && IsFirst(rows, i) ==> i in FirstIndices(rows, n)
  {
    if n > 0 {
      FirstIndicesMeaning(rows, n - 1);
    }
  }

  lemma {:induction false} IndicesOfMeaning(rows: seq<Reading>, k: Key, n: nat)
    requires n <= |rows|
    ensures Increasing(IndicesOf(rows, k, n))
    ensures forall t :: 0 <= t < |IndicesOf(rows, k, n)| ==> KeyOf(rows[IndicesOf(rows, k, n)[t]]) == k
    ensures forall i :: 0 <= i < n && KeyOf(rows[i]) == k ==> i in IndicesOf(rows, k, n)
  {
    if n > 0 {
      IndicesOfMeaning(rows, k, n - 1);
    }
  }

  ghost predicate Within(rows: seq<Reading>, idx: seq<nat>) {
    forall k :: 0 <= k < |idx| ==> idx[k] < |rows|
  }

  ghost function AgreedOnly(rows: seq<Reading>, firsts: seq<nat>): (idx: seq<nat>)
    requires Within(rows, firsts)
    ensures forall t :: 0 <= t < |idx| ==> idx[t] < |rows|
  {
    if firsts == [] then []
    else
      var last := firsts[|firsts| - 1];
      var rest := AgreedOnly(rows, firsts[..|firsts| - 1]);
      if Agrees(rows, KeyOf(rows[last])) then rest + [last] else rest
  }

  /** The whole group of every disagreeing key, group by group. */
  ghost function ConflictGroups(rows: seq<Reading>, firsts: seq<nat>): (idx: seq<nat>)
    requires Within(rows, firsts)
    ensures forall t :: 0 <= t < |idx| ==> idx[t] < |rows|
  {
    if firsts == [] then []
    else
      var k := KeyOf(rows[firsts[|firsts| - 1]]);
      var rest := ConflictGroups(rows, firsts[..|firsts| - 1]);
      if Agrees(rows, k) then rest else rest + IndicesOf(rows, k, |rows|)
  }

  /** The rows Dedupe keeps: the first copy of every agreed key. */
  ghost function KeptIndices(rows: seq<Reading>): (idx: seq<nat>)
    ensures Within(rows, idx)
  {
    AgreedOnly(rows, FirstIndices(rows, |rows|))
  }

  ghost function KeptRows(rows: seq<Reading>): seq<Reading> {
    Select(rows, KeptIndices(rows))
  }

  ghost function ConflictIndices(rows: seq<Reading>): (idx: seq<nat>)
    ensures Within(rows, idx)
  {
    ConflictGroups(rows, FirstIndices(rows, |rows|))
  }

  function Rejections(rows: seq<Reading>, idx: seq<nat>): (rs: seq<Rejection>)
    requires forall k :: 0 <= k < |idx| ==> idx[k] < |rows|
    ensures |rs| == |idx|
    ensures forall k :: 0 <= k < |idx| ==>
      rs[k] == Rejection(rows[idx[k]].ts, rows[idx[k]].kind, ConflictingDuplicate, NoRegister)
  {
    seq(|idx|, k requires 0 <= k < |idx| => Reject(rows[idx[k]], ConflictingDuplicate, NoRegister))
  }

  ghost function ConflictRejections(rows: seq<Reading>): seq<Rejection> {
    Rejections(rows, ConflictIndices(rows))
  }

  /** A group agrees as soon as every member equals its first member. */
  lemma GroupAgrees(rows: seq<Reading>, idx: seq<nat>, k: Key)
    requires idx == IndicesOf(rows, k, |rows|) && |idx| > 0
    ensures Agrees(rows, k) <==> forall t :: 0 <= t < |idx| ==> rows[idx[t]].regs == rows[idx[0]].regs
  {
    IndicesOfMeaning(rows, k, |rows|);
    if forall t :: 0 <= t < |idx| ==> rows[idx[t]].regs == rows[idx[0]].regs {
      forall i | 0 <= i < |rows| && KeyOf(rows[i]) == k
        ensures rows[i].regs == rows[idx[0]].regs
      {
        assert i in idx;
      }
    }
  }

  /** The first index of a group is the first row of its key. */
  lemma GroupStartsAtFirst(rows: seq<Reading>, idx: seq<nat>, i: nat)
    requires i < |rows| && IsFirst(rows, i) && idx == IndicesOf(rows, KeyOf(rows[i]), |rows|)
    ensures |idx| > 0 && idx[0] == i
  {
    IndicesOfMeaning(rows, KeyOf(rows[i]), |rows|);
    assert i in idx;
    var t :| 0 <= t < |idx| && idx[t] == i;
  }

  /** groups holds exactly the groups of the first n rows. */
  ghost predicate GroupsOf(rows: seq<Reading>, n: nat, groups: map<Key, seq<nat>>)
    requires n <= |rows|
  {
    && (forall j :: 0 <= j < n ==> KeyOf(rows[j]) in groups)
    && (forall k :: k in groups ==> groups[k] == IndicesOf(rows, k, n) && groups[k] != [])
  }

  /** order holds the keys of the given first indices. */
  ghost predicate OrderOf(rows: seq<Reading>, firsts: seq<nat>, order: seq<Key>)
    requires Within(rows, firsts)
  {
    |order| == |firsts| && forall t :: 0 <= t < |order| ==> order[t] == KeyOf(rows[firsts[t]])
  }

  /** A key is new exactly at the first row that carries it. */
  lemma NewKeyIsFirst(rows: seq<Reading>, groups: map<Key, seq<nat>>, i: nat)
    requires i < |rows| && GroupsOf(rows, i, groups)
    ensures KeyOf(rows[i]) !in groups <==> IsFirst(rows, i)
  {
    var k := KeyOf(rows[i]);
    if k in groups {
      IndicesOfMeaning(rows, k, i);
      var j := groups[k][0];
      assert j < i && KeyOf(rows[j]) == k;
    }
  }

  lemma NoEarlierRow(rows: seq<Reading>, k: Key, n: nat)
    requires n <= |rows| && forall j :: 0 <= j < n ==> KeyOf(rows[j]) != k
    ensures IndicesOf(rows, k, n) == []
  {
    if n > 0 {
      NoEarlierRow(rows, k, n - 1);
    }
  }

  lemma GroupsStep(rows: seq<Reading>, groups: map<Key, seq<nat>>, i: nat)
    requires i < |rows| && GroupsOf(rows, i, groups)
    ensures var k := KeyOf(rows[i]);
      GroupsOf(rows, i + 1, groups[k := (if k in groups then groups[k] else []) + [i]])
  {
    var k := KeyOf(rows[i]);
    if k !in groups {
      NoEarlierRow(rows, k, i);
    }
  }

  /** The first loop: collect the rows of each key and remember the order in
      which keys first appear. */
  method Group(rows: seq<Reading>) returns (groups: map<Key, seq<nat>>, order: seq<Key>)
    ensures OrderOf(rows, FirstIndices(rows, |rows|), order)
    ensures GroupsOf(rows, |rows|, groups)
  {
    groups, order := map[], [];
    for i := 0 to |rows|
      invariant OrderOf(rows, FirstIndices(rows, i), order)
      invariant GroupsOf(rows, i, groups)
    {
      var k := KeyOf(rows[i]);
      NewKeyIsFirst(rows, groups, i);
      GroupsStep(rows, groups, i);
      if k !in groups {
        order := order + [k];
        groups := groups[k := [i]];
      } else {
        groups := groups[k := groups[k] + [i]];
      }
    }
  }

  /** Whether a group of rows all equal its first member. */
  method Identical(rows: seq<Reading>, idxs: seq<nat>) returns (identical: bool)
    requires |idxs| > 0 && Within(rows, idxs)
    ensures identical <==> forall t :: 0 <= t < |idxs| ==> rows[idxs[t]].regs == rows[idxs[0]].regs
  {
    for j := 1 to |idxs|
      invariant forall t :: 0 <= t < j ==> rows[idxs[t]].regs == rows[idxs[0]].regs
    {
      if rows[idxs[0]].regs != rows[idxs[j]].regs {
        return false;
      }
    }
    return true;
  }

  method Conflicts(rows: seq<Reading>, idxs: seq<nat>) returns (rejected: seq<Rejection>)
    requires Within(rows, idxs)
    ensures rejected == Rejections(rows, idxs)
  {
    rejected := [];
    for j := 0 to |idxs|
      invariant |rejected| == j
      invariant forall t :: 0 <= t < j ==> rejected[t] == Reject(rows[idxs[t]], ConflictingDuplicate, NoRegister)
    {
      rejected := rejected + [Reject(rows[idxs[j]], ConflictingDuplicate, NoRegister)];
    }
  }

  /** One group: its first copy is kept when all copies agree, and the whole
      group is rejected otherwise. */
  method Settle(rows: seq<Reading>, k: Key, idxs: seq<nat>) returns (kept: seq<Reading>, rejected: seq<Rejection>)
    requires idxs == IndicesOf(rows, k, |rows|) && |idxs| > 0
    ensures kept == if Agrees(rows, k) then [rows[idxs[0]]] else []
    ensures rejected == if Agrees(rows, k) then [] else Rejections(rows, idxs)
  {
    GroupAgrees(rows, idxs, k);
    if |idxs| == 1 {
      return [rows[idxs[0]]], [];
    }
    var identical := Identical(rows, idxs);
    if identical {
      return [rows[idxs[0]]], [];
    }
    kept := [];
    rejected := Conflicts(rows, idxs);
  }

  /** What the second loop finds when it looks up the group of order[t]. */
  lemma GroupAtFirst(rows: seq<Reading>, groups: map<Key, seq<nat>>, order: seq<Key>, t: nat)
    requires OrderOf(rows, FirstIndices(rows, |rows|), order) && GroupsOf(rows, |rows|, groups)
    requires t < |order|
    ensures order[t] in groups && order[t] == KeyOf(rows[FirstIndices(rows, |rows|)[t]])
    ensures groups[order[t]] == IndicesOf(rows, order[t], |rows|)
    ensures |groups[order[t]]| > 0 && groups[order[t]][0] == FirstIndices(rows, |rows|)[t]
  {
    var i := FirstIndices(rows, |rows|)[t];
    FirstIndicesMeaning(rows, |rows|);
    GroupStartsAtFirst(rows, IndicesOf(rows, KeyOf(rows[i]), |rows|), i);
  }

  /** What one more group adds to the kept rows. */
  lemma OneMoreKept(rows: seq<Reading>, firsts: seq<nat>, t: nat)
    requires Within(rows, firsts) && t < |firsts|
    ensures Select(rows, AgreedOnly(rows, firsts[..t + 1]))
         == Select(rows, AgreedOnly(rows, firsts[..t]))
          + if Agrees(rows, KeyOf(rows[firsts[t]])) then [rows[firsts[t]]] else []
  {
    var before := AgreedOnly(rows, firsts[..t]);
    assert firsts[..t + 1][..t] == firsts[..t];
    if Agrees(rows, KeyOf(rows[firsts[t]])) {
      assert AgreedOnly(rows, firsts[..t + 1]) == before + [firsts[t]];
    }
  }

  lemma RejectionsConcat(rows: seq<Reading>, a: seq<nat>, b: seq<nat>)
    requires Within(rows, a) && Within(rows, b)
    ensures Within(rows, a + b)
    ensures Rejections(rows, a + b) == Rejections(rows, a) + Rejections(rows, b)
  {
  }

  /** What one more group adds to the rejections. */
  lemma OneMoreRejected(rows: seq<Reading>, firsts: seq<nat>, t: nat)
    requires Within(rows, firsts) && t < |firsts|
    ensures var k := KeyOf(rows[firsts[t]]);
      Rejections(rows, ConflictGroups(rows, firsts[..t + 1]))
        == Rejections(rows, ConflictGroups(rows, firsts[..t]))
         + if Agrees(rows, k) then [] else Rejections(rows, IndicesOf(rows, k, |rows|))
  {
    var before := ConflictGroups(rows, firsts[..t]);
    var k := KeyOf(rows[firsts[t]]);
    assert firsts[..t + 1][..t] == firsts[..t];
    if !Agrees(rows, k) {
      RejectionsConcat(rows, before, IndicesOf(rows, k, |rows|));
    }
  }

  method Dedupe(rows: seq<Reading>) returns (kept: seq<Reading>, rejected: seq<Rejection>)
    ensures kept == KeptRows(rows)
    ensures rejected == ConflictRejections(rows)
  {
    var groups, order := Group(rows);
    kept, rejected := [], [];
    ghost var firsts := FirstIndices(rows, |rows|);
    for t := 0 to |order|
      invariant kept == Select(rows, AgreedOnly(rows, firsts[..t]))
      invariant rejected == Rejections(rows, ConflictGroups(rows, firsts[..t]))
    {
      GroupAtFirst(rows, groups, order, t);
      OneMoreKept(rows, firsts, t);
      OneMoreRejected(rows, firsts, t);
      var keptHere, rejectedHere := Settle(rows, order[t], groups[order[t]]);
      kept, rejected := kept + keptHere, rejected + rejectedHere;
    }
    assert firsts[..|order|] == firsts;
  }

  // ----- What the result means

  lemma {:induction false} AgreedOnlyMeaning(rows: seq<Reading>, firsts: seq<nat>)
    requires Within(rows, firsts) && Increasing(firsts)
    ensures Increasing(AgreedOnly(rows, firsts))
    ensures forall t :: 0 <= t < |AgreedOnly(rows, firsts)| ==>
      var i := AgreedOnly(rows, firsts)[t]; i in firsts && Agrees(rows, KeyOf(rows[i]))
    ensures forall i :: i in firsts && Agrees(rows, KeyOf(rows[i])) ==> i in AgreedOnly(rows, firsts)
  {
    if firsts != [] {
      var front, last := firsts[..|firsts| - 1], firsts[|firsts| - 1];
      AgreedOnlyMeaning(rows, front);
      var rest := AgreedOnly(rows, front);
      assert firsts == front + [last];
      forall t | 0 <= t < |rest| ensures rest[t] < last {
        var u :| 0 <= u < |front| && front[u] == rest[t];
      }
      assert AgreedOnly(rows, firsts) == if Agrees(rows, KeyOf(rows[last])) then rest + [last] else rest;
    }
  }

  /** The kept rows are, in page order, exactly the first copies of the keys
      whose rows all agree. */
  lemma KeptMeaning(rows: seq<Reading>)
    ensures Increasing(KeptIndices(rows))
    ensures forall i :: 0 <= i < |rows| ==>
      (i in KeptIndices(rows) <==> IsFirst(rows, i) && Agrees(rows, KeyOf(rows[i])))
  {
    FirstIndicesMeaning(rows, |rows|);
    AgreedOnlyMeaning(rows, FirstIndices(rows, |rows|));
  }

  ghost predicate NoRepeats(idx: seq<nat>) {
    forall i, j :: 0 <= i < j < |idx| ==> idx[i] != idx[j]
  }

  lemma FirstOf(rows: seq<Reading>, i: nat) returns (f: nat)
    requires i < |rows|
    ensures f <= i && IsFirst(rows, f) && KeyOf(rows[f]) == KeyOf(rows[i])
  {
    f := i;
    while !IsFirst(rows, f)
      invariant 0 <= f <= i && KeyOf(rows[f]) == KeyOf(rows[i])
      decreases f
    {
      var g :| 0 <= g < f && KeyOf(rows[g]) == KeyOf(rows[f]);
      f := g;
    }
  }

  ghost predicate KeysApart(rows: seq<Reading>, idx: seq<nat>)
    requires Within(rows, idx)
  {
    forall s, t :: 0 <= s < t < |idx| ==> KeyOf(rows[idx[s]]) != KeyOf(rows[idx[t]])
  }

  /** The groups of distinct keys never share a row. */
  lemma {:induction false} ConflictGroupsMeaning(rows: seq<Reading>, firsts: seq<nat>)
    requires Within(rows, firsts)
    requires KeysApart(rows, firsts)
    ensures NoRepeats(ConflictGroups(rows, firsts))
    ensures forall u :: 0 <= u < |ConflictGroups(rows, firsts)| ==>
      var i := ConflictGroups(rows, firsts)[u];
      !Agrees(rows, KeyOf(rows[i])) && exists t :: 0 <= t < |firsts| && KeyOf(rows[firsts[t]]) == KeyOf(rows[i])
    ensures forall i, t | 0 <= i < |rows| && 0 <= t < |firsts| && KeyOf(rows[firsts[t]]) == KeyOf(rows[i]) ::
      !Agrees(rows, KeyOf(rows[i])) ==> i in ConflictGroups(rows, firsts)
  {
    hide Agrees, IndicesOf;
    if firsts != [] {
      var front := firsts[..|firsts| - 1];
      var k := KeyOf(rows[firsts[|firsts| - 1]]);
      ConflictGroupsMeaning(rows, front);
      IndicesOfMeaning(rows, k, |rows|);
      assert forall t :: 0 <= t < |front| ==> front[t] == firsts[t];
    }
  }

  lemma FirstsHaveDistinctKeys(rows: seq<Reading>)
    ensures KeysApart(rows, FirstIndices(rows, |rows|))
  {
    FirstIndicesMeaning(rows, |rows|);
    var firsts := FirstIndices(rows, |rows|);
    forall s, t | 0 <= s < t < |firsts| ensures KeyOf(rows[firsts[s]]) != KeyOf(rows[firsts[t]]) {
      assert IsFirst(rows, firsts[t]) && firsts[s] < firsts[t];
    }
  }

  /** Every row of a disagreeing key is rejected, exactly once each. */
  lemma ConflictMeaning(rows: seq<Reading>)
    ensures NoRepeats(ConflictIndices(rows))
    ensures forall i :: 0 <= i < |rows| ==>
      (i in ConflictIndices(rows) <==> !Agrees(rows, KeyOf(rows[i])))
  {
    var firsts := FirstIndices(rows, |rows|);
    FirstsHaveDistinctKeys(rows);
    ConflictGroupsMeaning(rows, firsts);
    FirstIndicesMeaning(rows, |rows|);
    forall i | 0 <= i < |rows| && !Agrees(rows, KeyOf(rows[i]))
      ensures i in ConflictIndices(rows)
    {
      var f := FirstOf(rows, i);
      assert f in firsts;
    }
  }

  /** A key reaches the batch iff it occurs and all its rows agree. */
  lemma KeepsKeyIffAgreed(rows: seq<Reading>, k: Key)
    ensures (exists t :: 0 <= t < |KeptRows(rows)| && KeyOf(KeptRows(rows)[t]) == k)
       <==> (exists i :: 0 <= i < |rows| && KeyOf(rows[i]) == k) && Agrees(rows, k)
  {
    KeptMeaning(rows);
    var idx := KeptIndices(rows);
    if t :| 0 <= t < |KeptRows(rows)| && KeyOf(KeptRows(rows)[t]) == k {
      assert idx[t] in idx;
    }
    if i :| 0 <= i < |rows| && KeyOf(rows[i]) == k && Agrees(rows, k) {
      var f := FirstOf(rows, i);
      var t :| 0 <= t < |idx| && idx[t] == f;
      assert KeyOf(KeptRows(rows)[t]) == k;
    }
  }

  lemma KeptKeysDistinct(rows: seq<Reading>)
    ensures DistinctKeys(KeptRows(rows))
  {
    KeptMeaning(rows);
    var idx := KeptIndices(rows);
    forall i, j | 0 <= i < j < |idx| ensures KeyOf(rows[idx[i]]) != KeyOf(rows[idx[j]]) {
      assert idx[j] in idx;
    }
  }

  lemma {:induction false} SizeOfRange(s: set<nat>, n: nat)
    requires forall i :: i in s <==> 0 <= i < n
    ensures |s| == n
  {
    if n > 0 {
      SizeOfRange(s - {n - 1}, n - 1);
    } else {
      assert s == {};
    }
  }

  ghost function Elements(idx: seq<nat>): set<nat> {
    set i | i in idx
  }

  lemma {:induction false} SizeOfNoRepeats(idx: seq<nat>)
    requires NoRepeats(idx)
    ensures |Elements(idx)| == |idx|
  {
    if idx == [] {
      assert Elements(idx) == {};
    } else {
      var front, last := idx[..|idx| - 1], idx[|idx| - 1];
      SizeOfNoRepeats(front);
      assert idx == front + [last] && last !in front;
      assert Elements(idx) == Elements(front) + {last};
    }
  }

  ghost function RedundantRows(rows: seq<Reading>): set<nat> {
    set i | 0 <= i < |rows| && Redundant(rows, i)
  }

  /** Kept, rejected and redundant rows add up to the page. */
  lemma DedupePartitions(rows: seq<Reading>)
    ensures |KeptRows(rows)| + |ConflictRejections(rows)| + |RedundantRows(rows)| == |rows|
  {
    var kept, conflicting := Elements(KeptIndices(rows)), Elements(ConflictIndices(rows));
    EveryRowHasOneFate(rows, kept, conflicting);
    SizeOfRange(kept + conflicting + RedundantRows(rows), |rows|);
    assert |KeptRows(rows)| == |kept| by {
      KeptMeaning(rows);
      SizeOfNoRepeats(KeptIndices(rows));
    }
    assert |ConflictRejections(rows)| == |conflicting| by {
      ConflictMeaning(rows);
      SizeOfNoRepeats(ConflictIndices(rows));
    }
  }

  /** Every row of the page is exactly one of kept, conflicting or redundant. */
  lemma EveryRowHasOneFate(rows: seq<Reading>, kept: set<nat>, conflicting: set<nat>)
    requires kept == Elements(KeptIndices(rows)) && conflicting == Elements(ConflictIndices(rows))
    ensures kept !! conflicting && (kept + conflicting) !! RedundantRows(rows)
    ensures forall i :: i in kept + conflicting + RedundantRows(rows) <==> 0 <= i < |rows|
  {
    KeptMeaning(rows);
    ConflictMeaning(rows);
    forall i | i in kept ensures i < |rows| && IsFirst(rows, i) && Agrees(rows, KeyOf(rows[i])) {
      var t :| 0 <= t < |KeptIndices(rows)| && KeptIndices(rows)[t] == i;
    }
    forall i | i in conflicting ensures i < |rows| && !Agrees(rows, KeyOf(rows[i])) {
      var t :| 0 <= t < |ConflictIndices(rows)| && ConflictIndices(rows)[t] == i;
    }
  }

  lemma ConflictNeedsTwoRows(rows: seq<Reading>)
    ensures ConflictIndices(rows) != [] ==> !DistinctKeys(rows)
  {
    ConflictMeaning(rows);
    if ConflictIndices(rows) != [] {
      var i := ConflictIndices(rows)[0];
      assert i in ConflictIndices(rows);
    }
  }

  /** A page of distinct keys passes through unchanged. */
  lemma DistinctPageUnchanged(rows: seq<Reading>)
    requires DistinctKeys(rows)
    ensures KeptRows(rows) == rows && ConflictRejections(rows) == []
  {
    KeptMeaning(rows);
    ConflictNeedsTwoRows(rows);
    assert forall i :: 0 <= i < |rows| ==> IsFirst(rows, i) && Agrees(rows, KeyOf(rows[i]));
    IncreasingAll(KeptIndices(rows), |rows|);
  }

  lemma NonEmptyRange(idx: seq<nat>, n: nat)
    requires forall t :: 0 <= t < |idx| ==> idx[t] < n
    ensures |idx| > 0 ==> n > 0
  {
    if |idx| > 0 {
      assert idx[0] < n;
    }
  }

  lemma {:induction false} IncreasingAll(idx: seq<nat>, n: nat)
    requires Increasing(idx) && (forall t :: 0 <= t < |idx| ==> idx[t] < n)
    requires forall i :: 0 <= i < n ==> i in idx
    ensures |idx| == n && forall t :: 0 <= t < n ==> idx[t] == t
  {
    NonEmptyRange(idx, n);
    if n > 0 {
      assert n - 1 in idx;
      var last := |idx| - 1;
      assert idx[last] == n - 1;
      forall i | 0 <= i < n - 1 ensures i in idx[..last] {
        assert i in idx;
        var t :| 0 <= t < |idx| && idx[t] == i;
        assert idx[..last][t] == i;
      }
      IncreasingAll(idx[..last], n - 1);
      assert forall t :: 0 <= t < last ==> idx[..last][t] == idx[t];
    }
  }
}
