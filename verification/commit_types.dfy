/** Conventional commit types, their order, and the sort and run-length
    counting (`dedup_by_with_count`) the bump summary applies to them. */
module CommitTypes {
  import opened Orderings

  /** The commit types of the conventional-commit parser, declared in this
      order, with `Custom` for any other type name. */
  datatype CommitType =
    | Feature | BugFix | Chore | Revert | Performances | Documentation
    | Style | Refactor | Test | Build | Ci | Custom(name: string)

  function Rank(t: CommitType): nat {
    match t
    case Feature => 0
    case BugFix => 1
    case Chore => 2
    case Revert => 3
    case Performances => 4
    case Documentation => 5
    case Style => 6
    case Refactor => 7
    case Test => 8
    case Build => 9
    case Ci => 10
    case Custom(_) => 11
  }

  /** Variants compare in declaration order; custom types by their names. */
  function CompareCommitTypes(a: CommitType, b: CommitType): Ordering {
    if Rank(a) != Rank(b) then CompareNats(Rank(a), Rank(b))
    else if a.Custom? && b.Custom? then CompareStrings(a.name, b.name)
    else Equal
  }

  predicate TypeLe(a: CommitType, b: CommitType) {
    CompareCommitTypes(a, b) != Greater
  }

  predicate TypeLt(a: CommitType, b: CommitType) {
    CompareCommitTypes(a, b) == Less
  }

  lemma CommitTypesTotalOrder()
    ensures TotalOrder(CompareCommitTypes)
  {
    StringsTotalOrder();
  }

  lemma TypeLeTotal(a: CommitType, b: CommitType)
    ensures TypeLe(a, b) || TypeLe(b, a)
  {
    CommitTypesTotalOrder();
    assert CompareCommitTypes(a, b) == CompareCommitTypes(b, a).Flip();
  }

  lemma TypeLeStrict(a: CommitType, b: CommitType)
    requires TypeLe(a, b) && a != b
    ensures TypeLt(a, b)
  {
    CommitTypesTotalOrder();
    assert CompareCommitTypes(a, b) == Equal <==> a == b;
  }

  lemma TypeLeTransitive(a: CommitType, b: CommitType, c: CommitType)
    requires TypeLe(a, b) && TypeLe(b, c)
    ensures TypeLe(a, c)
  {
    CommitTypesTotalOrder();
    if a != b && b != c {
      assert CompareCommitTypes(a, b) == Less && CompareCommitTypes(b, c) == Less;
    }
  }

  predicate Sorted(s: seq<CommitType>) {
    forall i, j :: 0 <= i < j < |s| ==> TypeLe(s[i], s[j])
  }

  function Insert(x: CommitType, s: seq<CommitType>): (r: seq<CommitType>)
    requires Sorted(s)
    ensures Sorted(r)
    ensures multiset(r) == multiset(s) + multiset{x}
  {
    if |s| == 0 then [x]
    else if TypeLe(x, s[0]) then
      assert forall j :: 0 <= j < |s| ==> TypeLe(x, s[j]) by {
        forall j | 0 <= j < |s|
          ensures TypeLe(x, s[j])
        {
          if j > 0 {
            TypeLeTransitive(x, s[0], s[j]);
          }
        }
      }
      [x] + s
    else
      var tail := Insert(x, s[1..]);
      assert s == [s[0]] + s[1..];
      TypeLeTotal(x, s[0]);
      assert forall j :: 0 <= j < |tail| ==> TypeLe(s[0], tail[j]) by {
        forall j | 0 <= j < |tail|
          ensures TypeLe(s[0], tail[j])
        {
          assert tail[j] in multiset(tail);
          if tail[j] != x {
            assert tail[j] in multiset(s[1..]);
          }
        }
      }
      [s[0]] + tail
  }

  /** The `sort` of the skipped commit types: ordered, and a permutation. */
  function Sort(s: seq<CommitType>): (r: seq<CommitType>)
    ensures Sorted(r)
    ensures multiset(r) == multiset(s)
  {
    if |s| == 0 then []
    else
      assert s == [s[0]] + s[1..];
      Insert(s[0], Sort(s[1..]))
  }

  /** One run of equal types and its length. */
  datatype TypeCount = TypeCount(count: nat, commitType: CommitType)

  function Repeat(t: CommitType, n: nat): (r: seq<CommitType>)
    ensures |r| == n
    ensures forall i :: 0 <= i < n ==> r[i] == t
  {
    if n == 0 then [] else [t] + Repeat(t, n - 1)
  }

  /** The sequence a run-length encoding stands for. */
  function Expand(runs: seq<TypeCount>): seq<CommitType> {
    if |runs| == 0 then [] else Repeat(runs[0].commitType, runs[0].count) + Expand(runs[1..])
  }

  function SumCounts(runs: seq<TypeCount>): nat {
    if |runs| == 0 then 0 else runs[0].count + SumCounts(runs[1..])
  }

  /** Consecutive equal types collapse into one run with its count
      (`dedup_by_with_count`). */
  function DedupWithCount(s: seq<CommitType>): (r: seq<TypeCount>)
    ensures Expand(r) == s
    ensures forall i :: 0 <= i < |r| ==> r[i].count > 0 && r[i].commitType in s
    ensures forall i :: 0 < i < |r| ==> r[i - 1].commitType != r[i].commitType
    ensures |s| > 0 ==> |r| > 0 && r[0].commitType == s[0]
    ensures |s| == 0 ==> r == []
  {
    if |s| == 0 then []
    else
      var rest := DedupWithCount(s[1..]);
      PushRunFacts(s[0], rest);
      assert s == [s[0]] + s[1..];
      PushRun(s[0], rest)
  }

  /** Puts one more type in front of a run-length encoding: it joins the
      first run when that run has the same type, and opens a new run
      otherwise. */
  function PushRun(t: CommitType, rest: seq<TypeCount>): seq<TypeCount> {
    if |rest| > 0 && rest[0].commitType == t then [TypeCount(rest[0].count + 1, t)] + rest[1..]
    else [TypeCount(1, t)] + rest
  }

  lemma {:induction false} PushRunFacts(t: CommitType, rest: seq<TypeCount>)
    requires forall i :: 0 <= i < |rest| ==> rest[i].count > 0
    requires forall i :: 0 < i < |rest| ==> rest[i - 1].commitType != rest[i].commitType
    ensures Expand(PushRun(t, rest)) == [t] + Expand(rest)
    ensures |PushRun(t, rest)| > 0 && PushRun(t, rest)[0].commitType == t
    ensures forall i :: 0 <= i < |PushRun(t, rest)| ==> PushRun(t, rest)[i].count > 0
    ensures forall i :: 0 < i < |PushRun(t, rest)| ==> PushRun(t, rest)[i] in rest
    ensures forall i :: 0 < i < |PushRun(t, rest)| ==>
              PushRun(t, rest)[i - 1].commitType != PushRun(t, rest)[i].commitType
  {
    var r := PushRun(t, rest);
    if |rest| > 0 && rest[0].commitType == t {
      assert r[1..] == rest[1..];
      assert Repeat(t, rest[0].count + 1) == [t] + Repeat(t, rest[0].count);
      assert forall i :: 0 < i < |r| ==> r[i] == rest[i];
    } else {
      assert r[1..] == rest;
      assert Repeat(t, 1) == [t];
      assert forall i :: 0 < i < |r| ==> r[i] == rest[i - 1];
    }
  }

  /** The counts add up to the number of types counted. */
  lemma {:induction false} SumCountsIsLength(runs: seq<TypeCount>)
    ensures SumCounts(runs) == |Expand(runs)|
  {
    if |runs| > 0 {
      SumCountsIsLength(runs[1..]);
    }
  }

  lemma {:induction false} ExpandMembers(runs: seq<TypeCount>, t: CommitType)
    requires forall i :: 0 <= i < |runs| ==> runs[i].commitType != t
    ensures multiset(Expand(runs))[t] == 0
  {
    if |runs| > 0 {
      ExpandMembers(runs[1..], t);
      assert multiset(Repeat(runs[0].commitType, runs[0].count))[t] == 0;
    }
  }

  lemma {:induction false} RepeatCount(t: CommitType, n: nat)
    ensures multiset(Repeat(t, n))[t] == n
  {
    if n > 0 {
      RepeatCount(t, n - 1);
    }
  }

  /** When the runs carry distinct types, each run's count is the number of
      occurrences of its type. */
  lemma {:induction false} DistinctRunsCount(runs: seq<TypeCount>)
    requires forall i, j :: 0 <= i < j < |runs| ==> runs[i].commitType != runs[j].commitType
    ensures forall i :: 0 <= i < |runs| ==> multiset(Expand(runs))[runs[i].commitType] == runs[i].count
  {
    if |runs| > 0 {
      DistinctRunsCount(runs[1..]);
      var head := runs[0];
      forall i | 0 <= i < |runs|
        ensures multiset(Expand(runs))[runs[i].commitType] == runs[i].count
      {
        var t := runs[i].commitType;
        assert multiset(Expand(runs)) == multiset(Repeat(head.commitType, head.count)) + multiset(Expand(runs[1..]));
        if i == 0 {
          RepeatCount(t, head.count);
          ExpandMembers(runs[1..], t);
        } else {
          assert runs[1..][i - 1] == runs[i];
          assert multiset(Repeat(head.commitType, head.count))[t] == 0;
        }
      }
    }
  }

  predicate StrictlyIncreasing(runs: seq<TypeCount>) {
    forall i, j :: 0 <= i < j < |runs| ==> TypeLt(runs[i].commitType, runs[j].commitType)
  }

  /** On sorted input the runs come out in strictly increasing type order. */
  lemma {:induction false} SortedRunsIncrease(s: seq<CommitType>)
    requires Sorted(s)
    ensures StrictlyIncreasing(DedupWithCount(s))
  {
    if |s| > 0 {
      var tail := s[1..];
      assert Sorted(tail) by {
        forall i, j | 0 <= i < j < |tail|
          ensures TypeLe(tail[i], tail[j])
        {
          assert tail[i] == s[i + 1] && tail[j] == s[j + 1];
        }
      }
      SortedRunsIncrease(tail);
      var rest := DedupWithCount(tail);
      if |rest| > 0 && rest[0].commitType != s[0] {
        assert rest[0].commitType == s[1];
        assert TypeLe(s[0], s[1]);
        TypeLeStrict(s[0], rest[0].commitType);
        NewRunIncreases(s[0], rest);
      }
    }
  }

  lemma NewRunIncreases(head: CommitType, rest: seq<TypeCount>)
    requires StrictlyIncreasing(rest)
    requires |rest| > 0 && TypeLt(head, rest[0].commitType)
    ensures StrictlyIncreasing([TypeCount(1, head)] + rest)
  {
    var r := [TypeCount(1, head)] + rest;
    forall j | 0 < j < |r|
      ensures TypeLt(head, r[j].commitType)
    {
      if j > 1 {
        CommitTypesTotalOrder();
        assert TypeLt(rest[0].commitType, rest[j - 1].commitType);
      }
    }
  }

  /** For sorted input every type's run counts all of its occurrences. */
  lemma SortedRunsCountOccurrences(s: seq<CommitType>)
    requires Sorted(s)
    ensures forall i :: 0 <= i < |DedupWithCount(s)| ==>
              DedupWithCount(s)[i].count == multiset(s)[DedupWithCount(s)[i].commitType]
  {
    var r := DedupWithCount(s);
    SortedRunsIncrease(s);
    CommitTypesTotalOrder();
    assert forall i, j :: 0 <= i < j < |r| ==> r[i].commitType != r[j].commitType by {
      forall i, j | 0 <= i < j < |r|
        ensures r[i].commitType != r[j].commitType
      {
        assert TypeLt(r[i].commitType, r[j].commitType);
        assert CompareCommitTypes(r[i].commitType, r[i].commitType) == Equal;
      }
    }
    DistinctRunsCount(r);
  }

  /** Every type of the expanded sequence has a run. */
  lemma {:induction false} ExpandedTypeHasRun(runs: seq<TypeCount>, t: CommitType)
    requires t in Expand(runs)
    ensures exists i :: 0 <= i < |runs| && runs[i].commitType == t
  {
    if |runs| > 0 {
      var first := Repeat(runs[0].commitType, runs[0].count);
      if t !in first {
        assert t in Expand(runs[1..]);
        ExpandedTypeHasRun(runs[1..], t);
        var i :| 0 <= i < |runs[1..]| && runs[1..][i].commitType == t;
        assert runs[i + 1].commitType == t;
      }
    }
  }
}
