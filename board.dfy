/** The leaderboard as a value: its order (ascending variance), the
    stable sort that restores it, ranking by id and deletion by id. */
module Board {
  import opened Types

  /** Ascending by total variance. */
  predicate Sorted(s: seq<SessionRecord>) {
    forall i, j :: 0 <= i < j < |s| ==> s[i].totalVariance <= s[j].totalVariance
  }

  /** The records of `s` whose variance is `v`, in their order in `s`. */
  function WithVariance(s: seq<SessionRecord>, v: int): seq<SessionRecord> {
    if s == [] then []
    else (if s[0].totalVariance == v then [s[0]] else []) + WithVariance(s[1..], v)
  }

  /** Number of records of `s` whose variance is at most `v`. */
  function CountAtMost(s: seq<SessionRecord>, v: int): nat {
    if s == [] then 0
    else (if s[0].totalVariance <= v then 1 else 0) + CountAtMost(s[1..], v)
  }

  /** Places `x` just before the first record of `t` with a larger variance,
      that is, after every record whose variance is at most its own. */
  function Insert(t: seq<SessionRecord>, x: SessionRecord): (r: seq<SessionRecord>)
    ensures |r| == |t| + 1
  {
    if t == [] then [x]
    else if t[0].totalVariance > x.totalVariance then [x] + t
    else [t[0]] + Insert(t[1..], x)
  }

  /** Inserting adds exactly the new record: the result holds the records
      of `t` and `x`, each as often as before. */
  lemma {:induction false} InsertPermutes(t: seq<SessionRecord>, x: SessionRecord)
    ensures multiset(Insert(t, x)) == multiset(t) + multiset{x}
  {
    if t != [] && t[0].totalVariance <= x.totalVariance {
      InsertPermutes(t[1..], x);
      assert t == [t[0]] + t[1..];
    }
  }

  /** Inserting into a sorted board keeps it sorted. */
  lemma {:induction false} InsertSorted(t: seq<SessionRecord>, x: SessionRecord)
    requires Sorted(t)
    ensures Sorted(Insert(t, x))
  {
    if t != [] && t[0].totalVariance <= x.totalVariance {
      InsertSorted(t[1..], x);
      InsertPermutes(t[1..], x);
      var rest := Insert(t[1..], x);
      forall j | 0 <= j < |rest| ensures t[0].totalVariance <= rest[j].totalVariance {
        assert rest[j] in multiset(t[1..]) + multiset{x};
        if rest[j] != x {
          assert rest[j] in t[1..];
        }
      }
      assert Insert(t, x) == [t[0]] + rest;
    }
  }

  /** `Array.prototype.sort` with the comparator `a.totalVariance -
      b.totalVariance`, which ES2019 requires to be stable: an insertion
      sort that takes the records left to right. The result is sorted and a
      permutation of the input. */
  function StableSort(s: seq<SessionRecord>): (r: seq<SessionRecord>)
    ensures Sorted(r)
    ensures multiset(r) == multiset(s)
    ensures |r| == |s|
  {
    if s == [] then []
    else
      assert s == s[..|s| - 1] + [s[|s| - 1]];
      InsertSorted(StableSort(s[..|s| - 1]), s[|s| - 1]);
      InsertPermutes(StableSort(s[..|s| - 1]), s[|s| - 1]);
      Insert(StableSort(s[..|s| - 1]), s[|s| - 1])
  }

  lemma {:induction false} WithVarianceAppend(a: seq<SessionRecord>, b: seq<SessionRecord>, v: int)
    ensures WithVariance(a + b, v) == WithVariance(a, v) + WithVariance(b, v)
  {
    if a != [] {
      assert (a + b)[1..] == a[1..] + b;
      WithVarianceAppend(a[1..], b, v);
    } else {
      assert a + b == b;
    }
  }

  lemma {:induction false} WithVarianceAbove(t: seq<SessionRecord>, v: int)
    requires forall i :: 0 <= i < |t| ==> t[i].totalVariance > v
    ensures WithVariance(t, v) == []
  {
    if t != [] {
      WithVarianceAbove(t[1..], v);
    }
  }

  /** Inserting `x` adds it after every record of equal variance. */
  lemma {:induction false} InsertStable(t: seq<SessionRecord>, x: SessionRecord, v: int)
    requires Sorted(t)
    ensures WithVariance(Insert(t, x), v) ==
      WithVariance(t, v) + (if x.totalVariance == v then [x] else [])
  {
    if t == [] {
    } else if t[0].totalVariance > x.totalVariance {
      if x.totalVariance == v {
        WithVarianceAbove(t, v);
      }
    } else {
      InsertStable(t[1..], x, v);
    }
  }

  /** Stability: for every variance, the records with that variance keep
      their relative order through the sort. */
  lemma {:induction false} SortIsStable(s: seq<SessionRecord>, v: int)
    ensures WithVariance(StableSort(s), v) == WithVariance(s, v)
  {
    if s != [] {
      var init, last := s[..|s| - 1], s[|s| - 1];
      assert s == init + [last];
      SortIsStable(init, v);
      InsertStable(StableSort(init), last, v);
      WithVarianceAppend(init, [last], v);
    }
  }

  /** Sorting a board that is already sorted changes nothing. */
  lemma {:induction false} SortOfSorted(s: seq<SessionRecord>)
    requires Sorted(s)
    ensures StableSort(s) == s
  {
    if s != [] {
      var init, last := s[..|s| - 1], s[|s| - 1];
      assert init + [last] == s;
      InsertAtEnd(init, last);
      SortOfSorted(init);
      calc {
        StableSort(s);
        Insert(StableSort(init), last);
        Insert(init, last);
        s;
      }
    }
  }

  /** A record no smaller than every record of `t` goes at the end. */
  lemma {:induction false} InsertAtEnd(t: seq<SessionRecord>, x: SessionRecord)
    requires Sorted(t + [x])
    ensures Sorted(t) && Insert(t, x) == t + [x]
  {
    assert forall i :: 0 <= i < |t| ==> (t + [x])[i] == t[i];
    if t != [] {
      assert (t + [x])[1..] == t[1..] + [x];
      assert t[0].totalVariance <= x.totalVariance by { assert (t + [x])[|t|] == x; }
      InsertAtEnd(t[1..], x);
    }
  }

  /** The board after a completed session is the old (sorted) board with
      the new record inserted after every record of no larger variance. */
  lemma AppendThenSort(board: seq<SessionRecord>, x: SessionRecord)
    requires Sorted(board)
    ensures StableSort(board + [x]) == Insert(board, x)
  {
    assert (board + [x])[..|board|] == board;
    SortOfSorted(board);
  }

  /** What a completed session does to a sorted board: appending the
      record and sorting stably is an insertion after every record of no
      larger variance; the board stays sorted and holds exactly one more
      record; and a record whose id no earlier record has ranks just below
      every earlier record of no larger variance. */
  lemma Added(board: seq<SessionRecord>, x: SessionRecord)
    requires Sorted(board)
    ensures var b := StableSort(board + [x]);
      && b == Insert(board, x)
      && Sorted(b)
      && |b| == |board| + 1
      && multiset(b) == multiset(board) + multiset{x}
      && ((forall i :: 0 <= i < |board| ==> board[i].id != x.id) ==>
            Rank(b, x.id) == 1 + CountAtMost(board, x.totalVariance))
  {
    AppendThenSort(board, x);
    if forall i :: 0 <= i < |board| ==> board[i].id != x.id {
      RankOfAdded(board, x);
    }
  }

  lemma {:induction false} CountAtMostAppend(a: seq<SessionRecord>, b: seq<SessionRecord>, v: int)
    ensures CountAtMost(a + b, v) == CountAtMost(a, v) + CountAtMost(b, v)
  {
    if a != [] {
      assert (a + b)[1..] == a[1..] + b;
      CountAtMostAppend(a[1..], b, v);
    } else {
      assert a + b == b;
    }
  }

  lemma {:induction false} CountAtMostInsert(t: seq<SessionRecord>, x: SessionRecord, v: int)
    requires Sorted(t)
    ensures CountAtMost(Insert(t, x), v) == CountAtMost(t, v) + (if x.totalVariance <= v then 1 else 0)
  {
    if t != [] && t[0].totalVariance <= x.totalVariance {
      CountAtMostInsert(t[1..], x, v);
    }
  }

  /** Sorting does not change how many records have variance at most `v`. */
  lemma {:induction false} CountAtMostSort(s: seq<SessionRecord>, v: int)
    ensures CountAtMost(StableSort(s), v) == CountAtMost(s, v)
  {
    if s != [] {
      var init, last := s[..|s| - 1], s[|s| - 1];
      assert s == init + [last];
      CountAtMostSort(init, v);
      CountAtMostInsert(StableSort(init), last, v);
      CountAtMostAppend(init, [last], v);
    }
  }

  /** `findIndex(r => r.id === id)`: the first position holding `id`, or -1. */
  function FindIndex(s: seq<SessionRecord>, id: string): (r: int)
    ensures -1 <= r < |s|
    ensures r == -1 <==> forall i :: 0 <= i < |s| ==> s[i].id != id
    ensures r >= 0 ==> s[r].id == id && forall j :: 0 <= j < r ==> s[j].id != id
  {
    if s == [] then -1
    else if s[0].id == id then 0
    else
      var k := FindIndex(s[1..], id);
      if k == -1 then -1 else k + 1
  }

  /** The 1-based rank of the record with `id`; 0 when no record has it. */
  function Rank(s: seq<SessionRecord>, id: string): (r: nat)
    ensures r <= |s|
    ensures r == 0 <==> forall i :: 0 <= i < |s| ==> s[i].id != id
    ensures r > 0 ==> s[r - 1].id == id && forall j :: 0 <= j < r - 1 ==> s[j].id != id
  {
    FindIndex(s, id) + 1
  }

  lemma {:induction false} FindIndexInsert(t: seq<SessionRecord>, x: SessionRecord)
    requires Sorted(t)
    requires forall i :: 0 <= i < |t| ==> t[i].id != x.id
    ensures FindIndex(Insert(t, x), x.id) == CountAtMost(t, x.totalVariance)
  {
    if t == [] {
    } else if t[0].totalVariance > x.totalVariance {
      CountAtMostAbove(t, x.totalVariance);
    } else {
      FindIndexInsert(t[1..], x);
      var r := Insert(t, x);
      assert r[1..] == Insert(t[1..], x);
    }
  }

  lemma {:induction false} CountAtMostAbove(t: seq<SessionRecord>, v: int)
    requires forall i :: 0 <= i < |t| ==> t[i].totalVariance > v
    ensures CountAtMost(t, v) == 0
  {
    if t != [] {
      CountAtMostAbove(t[1..], v);
    }
  }

  /** The rank of a record just added to the board (with an id no earlier
      record has) is one more than the number of earlier records whose
      variance is at most its own: ties rank below the earlier records. */
  lemma RankOfAdded(board: seq<SessionRecord>, x: SessionRecord)
    requires forall i :: 0 <= i < |board| ==> board[i].id != x.id
    ensures Rank(StableSort(board + [x]), x.id) == 1 + CountAtMost(board, x.totalVariance)
  {
    var t := StableSort(board);
    assert (board + [x])[..|board|] == board;
    forall i | 0 <= i < |t| ensures t[i].id != x.id {
      assert t[i] in multiset(board);
    }
    FindIndexInsert(t, x);
    CountAtMostSort(board, x.totalVariance);
  }

  /** Three sessions scoring 30, 5 and 12, stopped in that order on an
      empty board: the board reads 5, 12, 30 and the 12-variance session
      ranks second. */
  lemma ThreeInsertsRank(a: SessionRecord, b: SessionRecord, c: SessionRecord)
    requires a.totalVariance == 30 && b.totalVariance == 5 && c.totalVariance == 12
    requires a.id != c.id && b.id != c.id
    ensures var board := StableSort(StableSort(StableSort([] + [a]) + [b]) + [c]);
      board == [b, c, a] && Rank(board, c.id) == 2
  {
    FirstStop(a);
    StopBelow(a, b);
    InsertBetween(b, a, c);
    AppendThenSort([b, a], c);
    RankSecond([b, c, a], c.id);
  }

  /** A stop on an empty board gives a board of that one record. */
  lemma FirstStop(a: SessionRecord)
    ensures StableSort([] + [a]) == [a]
  {
    AppendThenSort([], a);
  }

  /** A record scoring below the only record on the board goes first. */
  lemma StopBelow(a: SessionRecord, b: SessionRecord)
    requires b.totalVariance < a.totalVariance
    ensures StableSort([a] + [b]) == [b, a]
  {
    AppendThenSort([a], b);
  }

  /** A record scoring between the two records of a board goes in the
      middle. */
  lemma InsertBetween(b: SessionRecord, a: SessionRecord, c: SessionRecord)
    requires b.totalVariance <= c.totalVariance < a.totalVariance
    ensures Insert([b, a], c) == [b, c, a]
  {
    assert [b, a][1..] == [a];
    assert Insert([a], c) == [c, a];
  }

  /** An id held by the second record and not by the first or the rest
      ranks second. */
  lemma RankSecond(s: seq<SessionRecord>, id: string)
    requires |s| == 3 && s[0].id != id && s[1].id == id && s[2].id != id
    ensures Rank(s, id) == 2
  {
    var r := Rank(s, id);
    assert r != 0;
    assert r - 1 != 0 && r - 1 != 2;
  }

  /** `filter(r => r.id !== id)`: the records whose id differs, in order. */
  function RemoveId(s: seq<SessionRecord>, id: string): (r: seq<SessionRecord>)
    ensures |r| <= |s|
    ensures forall x :: x in r <==> x in s && x.id != id
  {
    if s == [] then []
    else (if s[0].id != id then [s[0]] else []) + RemoveId(s[1..], id)
  }

  /** Deleting distributes over concatenation: it keeps the survivors in
      their original order. */
  lemma {:induction false} RemoveIdAppend(a: seq<SessionRecord>, b: seq<SessionRecord>, id: string)
    ensures RemoveId(a + b, id) == RemoveId(a, id) + RemoveId(b, id)
  {
    if a != [] {
      assert (a + b)[1..] == a[1..] + b;
      RemoveIdAppend(a[1..], b, id);
    } else {
      assert a + b == b;
    }
  }

  /** Deleting an id no record has leaves the board as it was. */
  lemma {:induction false} RemoveAbsentId(s: seq<SessionRecord>, id: string)
    requires forall i :: 0 <= i < |s| ==> s[i].id != id
    ensures RemoveId(s, id) == s
  {
    if s != [] {
      RemoveAbsentId(s[1..], id);
    }
  }

  /** Deleting keeps the board sorted. */
  lemma {:induction false} RemoveIdSorted(s: seq<SessionRecord>, id: string)
    requires Sorted(s)
    ensures Sorted(RemoveId(s, id))
  {
    if s != [] {
      RemoveIdSorted(s[1..], id);
      var rest := RemoveId(s[1..], id);
      forall j | 0 <= j < |rest| ensures s[0].totalVariance <= rest[j].totalVariance {
        assert rest[j] in s[1..];
      }
    }
  }

  /** The records a deletion removes are exactly those carrying the id. */
  lemma {:induction false} RemoveIdLength(s: seq<SessionRecord>, id: string)
    ensures |RemoveId(s, id)| + Matches(s, id) == |s|
  {
    if s != [] {
      RemoveIdLength(s[1..], id);
    }
  }

  /** Number of records carrying `id`. */
  function Matches(s: seq<SessionRecord>, id: string): nat {
    if s == [] then 0
    else (if s[0].id == id then 1 else 0) + Matches(s[1..], id)
  }
}
