/** Choosing a commit index by the votes of a strict majority. */
module Election {
  import opened Wrappers
  import opened MacChain

  type Ballot = map<HsmId, Option<nat>>

  /** The voters whose vote is `index` or beyond it. */
  function Reached(votes: Ballot, index: nat): set<HsmId> {
    set h <- votes.Keys | votes[h].Some? && index <= votes[h].value
  }

  predicate Carries(votes: Ballot, index: nat) {
    2 * |Reached(votes, index)| > |votes|
  }

  /** The greatest index that a strict majority of all eligible voters reached,
      or none if fewer than that voted at all. */
  ghost predicate IsOutcome(votes: Ballot, r: Option<nat>) {
    && (r.Some? ==> Carries(votes, r.value))
    && forall j: nat :: Carries(votes, j) ==> r.Some? && j <= r.value
  }

  /** At most one answer is an outcome. */
  lemma OutcomeUnique(votes: Ballot, r: Option<nat>, q: Option<nat>)
    requires IsOutcome(votes, r) && IsOutcome(votes, q)
    ensures r == q
  {}

  // ---- Counting in a list ----

  ghost function CountAtLeast(s: seq<nat>, i: nat): nat {
    if s == [] then 0 else (if i <= s[0] then 1 else 0) + CountAtLeast(s[1..], i)
  }

  predicate Descending(s: seq<nat>) {
    forall i, j :: 0 <= i < j < |s| ==> s[i] >= s[j]
  }

  lemma NoneAbove(s: seq<nat>, x: nat, t: seq<nat>)
    requires Descending(s) && s != [] && x < s[0] && forall y :: y in t <==> y == x || y in s[1..]
    ensures forall k :: 0 <= k < |t| ==> t[k] <= s[0]
  {
    forall k | 0 <= k < |t| ensures t[k] <= s[0] {
      assert t[k] in t;
      if t[k] != x {
        var i :| 0 <= i < |s[1..]| && s[1..][i] == t[k];
        assert s[0] >= s[i + 1];
      }
    }
  }

  function InsertDescending(s: seq<nat>, x: nat): (r: seq<nat>)
    requires Descending(s)
    ensures Descending(r)
    ensures forall y :: y in r <==> y == x || y in s
  {
    if s == [] || x >= s[0] then [x] + s else
      var t := InsertDescending(s[1..], x);
      NoneAbove(s, x, t);
      [s[0]] + t
  }

  lemma {:induction false} InsertCount(s: seq<nat>, x: nat, i: nat)
    requires Descending(s)
    ensures CountAtLeast(InsertDescending(s, x), i) == CountAtLeast(s, i) + (if i <= x then 1 else 0)
  {
    if s == [] || x >= s[0] {
      assert ([x] + s)[1..] == s;
    } else {
      var t := InsertDescending(s[1..], x);
      assert ([s[0]] + t)[1..] == t;
      InsertCount(s[1..], x, i);
    }
  }

  /** In a descending list the element at offset `m` is reached by more than `m`
      elements, and anything above it by at most `m`. */
  lemma {:induction false} DescendingCount(s: seq<nat>, m: nat, i: nat)
    requires Descending(s) && m < |s|
    ensures i <= s[m] ==> CountAtLeast(s, i) > m
    ensures i > s[m] ==> CountAtLeast(s, i) <= m
  {
    if m > 0 {
      DescendingCount(s[1..], m - 1, i);
    } else if i > s[0] {
      NoneAtLeast(s, i);
    }
  }

  lemma {:induction false} NoneAtLeast(s: seq<nat>, i: nat)
    requires forall k :: 0 <= k < |s| ==> s[k] < i
    ensures CountAtLeast(s, i) == 0
  {
    if s != [] { NoneAtLeast(s[1..], i); }
  }

  lemma {:induction false} CountBounded(s: seq<nat>, i: nat)
    ensures CountAtLeast(s, i) <= |s|
  {
    if s != [] { CountBounded(s[1..], i); }
  }

  /** The list holds the votes of the voters in `seen`. */
  ghost predicate Tallied(votes: Ballot, seen: set<HsmId>, indexes: seq<nat>) {
    forall i: nat :: CountAtLeast(indexes, i) == |Reached(votes, i) * seen|
  }

  lemma TallyOne(votes: Ballot, seen: set<HsmId>, indexes: seq<nat>, h: HsmId)
    requires h in votes && h !in seen && Descending(indexes) && Tallied(votes, seen, indexes)
    ensures votes[h].None? ==> Tallied(votes, seen + {h}, indexes)
    ensures votes[h].Some? ==> Tallied(votes, seen + {h}, InsertDescending(indexes, votes[h].value))
  {
    forall i: nat
      ensures |Reached(votes, i) * (seen + {h})| ==
              |Reached(votes, i) * seen| + (if h in Reached(votes, i) then 1 else 0)
    {
      var r := Reached(votes, i);
      assert r * (seen + {h}) == r * seen + (if h in r then {h} else {});
    }
    if votes[h].Some? {
      forall i: nat { InsertCount(indexes, votes[h].value, i); }
    }
  }

  /** The element at half the number of voters is the outcome. */
  lemma TallyDecides(votes: Ballot, indexes: seq<nat>)
    requires Descending(indexes) && Tallied(votes, votes.Keys, indexes)
    ensures var m := |votes| / 2;
            IsOutcome(votes, if |indexes| > m then Some(indexes[m]) else None)
  {
    var m := |votes| / 2;
    forall j: nat ensures Carries(votes, j) <==> |indexes| > m && j <= indexes[m] {
      assert Reached(votes, j) * votes.Keys == Reached(votes, j);
      assert CountAtLeast(indexes, j) == |Reached(votes, j)|;
      if |indexes| > m { DescendingCount(indexes, m, j); } else { CountBounded(indexes, j); }
    }
  }

  class HsmElection {
    /** State per eligible voter. */
    var votes: Ballot

    /** An election without voters is refused. */
    constructor (voters: seq<HsmId>)
      requires voters != []
      ensures votes == map h | h in voters :: None
      ensures votes != map[]
    {
      votes := map h | h in voters :: None;
      new;
      assert voters[0] in votes;
    }

    /** A later vote replaces an earlier one; votes of others are ignored. */
    method Vote(voter: HsmId, index: nat)
      modifies this
      ensures votes == if voter in old(votes) then old(votes)[voter := Some(index)] else old(votes)
    {
      if voter in votes {
        votes := votes[voter := Some(index)];
      }
    }

    method Outcome() returns (r: Option<nat>)
      ensures IsOutcome(votes, r)
    {
      var indexes: seq<nat> := [];
      var voters := votes.Keys;
      ghost var seen: set<HsmId> := {};
      while voters != {}
        invariant voters !! seen && voters + seen == votes.Keys
        invariant Descending(indexes) && Tallied(votes, seen, indexes)
        decreases voters
      {
        var h :| h in voters;
        TallyOne(votes, seen, indexes, h);
        if votes[h].Some? {
          indexes := InsertDescending(indexes, votes[h].value);
        }
        voters, seen := voters - {h}, seen + {h};
      }
      assert seen == votes.Keys;
      TallyDecides(votes, indexes);
      var m := |votes| / 2;
      r := if |indexes| > m then Some(indexes[m]) else None;
    }
  }
}
