/** Median time past and the block timestamp rule (gamecoin/time_rules.py). */
module TimeRules {
  import opened Prelude
  import opened Types

  const MEDIAN_TIME_WINDOW := 11
  const MAX_FUTURE_BLOCK_SECONDS := 7_200

  function Insert(x: int, s: seq<int>): (r: seq<int>)
    ensures |r| == |s| + 1
  {
    if s == [] || x <= s[0] then [x] + s else [s[0]] + Insert(x, s[1..])
  }

  function Sort(s: seq<int>): (r: seq<int>)
    ensures |r| == |s|
  {
    if s == [] then [] else Insert(s[0], Sort(s[1..]))
  }

  /** `int(statistics.median(values))`. */
  function Median(values: seq<int>): int
    requires values != []
  {
    var s := Sort(values);
    if |s| % 2 == 1 then s[|s| / 2] else TruncHalf(s[|s| / 2 - 1] + s[|s| / 2])
  }

  function Window(times: seq<int>): seq<int> {
    if |times| <= MEDIAN_TIME_WINDOW then times else times[|times| - MEDIAN_TIME_WINDOW..]
  }

  function MedianTimePast(blocks: seq<Block>): int {
    if blocks == [] then 0 else Median(Window(Times(blocks)))
  }

  function ValidateTimestamp(blocks: seq<Block>, timestamp: int, now: int): Option<Error> {
    if blocks != [] && timestamp <= MedianTimePast(blocks) then Some(TimestampTooOld)
    else if timestamp > now + MAX_FUTURE_BLOCK_SECONDS then Some(TimestampTooNew)
    else None
  }

  ghost predicate Ascending(s: seq<int>) {
    forall i, j :: 0 <= i < j < |s| ==> s[i] <= s[j]
  }

  ghost function CountBelow(s: seq<int>, v: int): nat {
    if s == [] then 0 else (if s[0] < v then 1 else 0) + CountBelow(s[1..], v)
  }

  lemma {:induction false} InsertKeeps(x: int, s: seq<int>, v: int)
    ensures multiset(Insert(x, s)) == multiset(s) + multiset{x}
    ensures CountBelow(Insert(x, s), v) == CountBelow(s, v) + (if x < v then 1 else 0)
  {
    if s == [] || x <= s[0] {
      assert ([x] + s)[1..] == s;
    } else {
      InsertKeeps(x, s[1..], v);
      assert s == [s[0]] + s[1..];
      assert ([s[0]] + Insert(x, s[1..]))[1..] == Insert(x, s[1..]);
    }
  }

  lemma {:induction false} InsertAbove(x: int, s: seq<int>, low: int)
    requires low <= x && forall i :: 0 <= i < |s| ==> low <= s[i]
    ensures forall i :: 0 <= i < |Insert(x, s)| ==> low <= Insert(x, s)[i]
  {
    if s != [] && x > s[0] {
      InsertAbove(x, s[1..], low);
    }
  }

  lemma {:induction false} InsertAscending(x: int, s: seq<int>)
    requires Ascending(s)
    ensures Ascending(Insert(x, s))
  {
    if s != [] && x > s[0] {
      var rest := Insert(x, s[1..]);
      InsertAscending(x, s[1..]);
      InsertAbove(x, s[1..], s[0]);
      AscendingCons(s[0], rest);
    }
  }

  lemma {:induction false} AscendingCons(x: int, s: seq<int>)
    requires Ascending(s) && forall i :: 0 <= i < |s| ==> x <= s[i]
    ensures Ascending([x] + s)
  {
  }

  lemma {:induction false} SortSorts(s: seq<int>, v: int)
    ensures Ascending(Sort(s)) && multiset(Sort(s)) == multiset(s)
    ensures CountBelow(Sort(s), v) == CountBelow(s, v)
  {
    if s != [] {
      SortSorts(s[1..], v);
      InsertKeeps(s[0], Sort(s[1..]), v);
      InsertAscending(s[0], Sort(s[1..]));
      assert s == [s[0]] + s[1..];
    }
  }

  lemma {:induction false} RankInAscending(s: seq<int>, k: nat, v: int)
    requires Ascending(s) && k < |s|
    ensures s[k] >= v <==> CountBelow(s, v) <= k
  {
    if s[0] >= v {
      NothingBelow(s, v);
    } else if k > 0 {
      RankInAscending(s[1..], k - 1, v);
    }
  }

  lemma {:induction false} NothingBelow(s: seq<int>, v: int)
    requires forall i :: 0 <= i < |s| ==> s[i] >= v
    ensures CountBelow(s, v) == 0
  {
    if s != [] {
      NothingBelow(s[1..], v);
    }
  }

  lemma {:induction false} CountAppend(s: seq<int>, t: int, v: int)
    ensures CountBelow(s + [t], v) == CountBelow(s, v) + (if t < v then 1 else 0)
  {
    if s != [] {
      assert (s + [t])[1..] == s[1..] + [t];
      CountAppend(s[1..], t, v);
    }
  }

  lemma {:induction false} MedianRank(values: seq<int>)
    requires values != []
    ensures CountBelow(values, Median(values)) <= |values| / 2
  {
    var s := Sort(values);
    SortSorts(values, Median(values));
    RankInAscending(s, |s| / 2, Median(values));
  }

  lemma {:induction false} MedianAtLeast(values: seq<int>, v: int)
    requires values != [] && CountBelow(values, v) <= (|values| - 1) / 2
    ensures Median(values) >= v
  {
    var s := Sort(values);
    SortSorts(values, v);
    RankInAscending(s, |s| / 2, v);
    RankInAscending(s, (|s| - 1) / 2, v);
  }

  /** Half of the values are at most the median and half are at least the median. */
  lemma {:induction false} MedianSplitsWindow(values: seq<int>)
    requires values != []
    ensures var s := Sort(values);
            && Ascending(s) && multiset(s) == multiset(values)
            && s[(|s| - 1) / 2] <= Median(values) <= s[|s| / 2]
  {
    SortSorts(values, 0);
  }

  /** Two ascending arrangements of the same values are one. */
  lemma {:induction false} AscendingUnique(s: seq<int>, t: seq<int>, k: nat)
    requires Ascending(s) && Ascending(t) && multiset(s) == multiset(t) && k < |s|
    ensures |s| == |t| && s[k] == t[k]
  {
    assert |s| == |multiset(s)| && |t| == |multiset(t)|;
    CountByMultiset(s, t, s[k]);
    CountByMultiset(s, t, t[k]);
    RankInAscending(s, k, s[k]);
    RankInAscending(t, k, s[k]);
    RankInAscending(s, k, t[k]);
    RankInAscending(t, k, t[k]);
  }

  lemma {:induction false} CountByMultiset(s: seq<int>, t: seq<int>, v: int)
    requires multiset(s) == multiset(t)
    ensures CountBelow(s, v) == CountBelow(t, v)
  {
    assert |s| == |multiset(s)| && |t| == |multiset(t)|;
    if s != [] {
      assert s[0] in multiset(s);
      var j :| 0 <= j < |t| && t[j] == s[0];
      var rest := t[..j] + t[j + 1..];
      WithoutOne(s, 0);
      WithoutOne(t, j);
      assert s[..0] + s[1..] == s[1..];
      CountByMultiset(s[1..], rest, v);
      CountWithout(t, j, v);
    } else {
      assert t == [];
    }
  }

  lemma {:induction false} WithoutOne(t: seq<int>, j: nat)
    requires j < |t|
    ensures multiset(t[..j] + t[j + 1..]) == multiset(t) - multiset{t[j]}
  {
    assert t == t[..j] + [t[j]] + t[j + 1..];
  }

  lemma {:induction false} CountWithout(t: seq<int>, j: nat, v: int)
    requires j < |t|
    ensures CountBelow(t, v) == CountBelow(t[..j] + t[j + 1..], v) + (if t[j] < v then 1 else 0)
  {
    if j == 0 {
      assert t[..0] + t[1..] == t[1..];
    } else {
      CountWithout(t[1..], j - 1, v);
      assert (t[..j] + t[j + 1..])[1..] == t[1..][..j - 1] + t[1..][j..];
    }
  }

  /** The integer half of `sum`, rounded toward zero. */
  ghost predicate HalfOf(m: int, sum: int) {
    if sum >= 0 then 2 * m <= sum <= 2 * m + 1 else 2 * m - 1 <= sum <= 2 * m
  }

  lemma {:induction false} MedianIsMiddle(values: seq<int>, sorted: seq<int>)
    requires values != [] && Ascending(sorted) && multiset(sorted) == multiset(values)
    ensures |sorted| == |values|
    ensures var m, n := Median(values), |sorted|;
            if n % 2 == 1 then m == sorted[n / 2] else HalfOf(m, sorted[n / 2 - 1] + sorted[n / 2])
  {
    assert |sorted| == |multiset(sorted)| && |values| == |multiset(values)|;
    var n := |sorted|;
    SortSorts(values, 0);
    AscendingUnique(sorted, Sort(values), n / 2);
    if n % 2 == 0 {
      AscendingUnique(sorted, Sort(values), n / 2 - 1);
    }
  }

  /**
   Median time past, from the last eleven timestamps in any ascending arrangement: the middle one, or of an even number
   the average of the two middle ones, rounded toward zero.
   */
  lemma {:induction false} MedianTimePastIsMiddle(blocks: seq<Block>, recent: seq<Block>, sorted: seq<int>)
    requires blocks != [] && recent == blocks[if |blocks| < 11 then 0 else |blocks| - 11..]
    requires Ascending(sorted) && multiset(sorted) == multiset(Times(recent))
    ensures |sorted| == |recent|
    ensures var m, n := MedianTimePast(blocks), |sorted|;
            if n % 2 == 1 then m == sorted[n / 2] else HalfOf(m, sorted[n / 2 - 1] + sorted[n / 2])
  {
    var w := Window(Times(blocks));
    assert w == Times(recent);
    MedianIsMiddle(w, sorted);
  }

  /** An accepted timestamp never lowers the median, while the window grows and once it slides. */
  lemma {:induction false} MedianTimePastNeverDecreases(blocks: seq<Block>, next: Block)
    requires blocks != [] && next.header.timestamp > MedianTimePast(blocks)
    ensures MedianTimePast(blocks + [next]) >= MedianTimePast(blocks)
  {
    var v, t := MedianTimePast(blocks), next.header.timestamp;
    var w, w' := Window(Times(blocks)), Window(Times(blocks + [next]));
    MedianRank(w);
    if |blocks| < MEDIAN_TIME_WINDOW {
      assert w' == w + [t];
    } else {
      assert w' == w[1..] + [t];
    }
    CountAppend(w, t, v);
    CountAppend(w[1..], t, v);
    MedianAtLeast(w', v);
  }
}
