/** Block rewards: converted from the RPC's form, and put in the order of their lamports. */
module Rewards {
  import opened Basics

  datatype RpcRewardType = TypeFee | TypeRent | TypeVoting | TypeStaking | OtherType(name: string)

  datatype RpcReward = RpcReward(pubkey: string, lamports: int64, postBalance: uint64, kind: RpcRewardType)

  datatype RewardType = Unspecified | Fee | Rent | Staking | Voting

  datatype Reward = Reward(pubkey: string, lamports: int64, postBalance: uint64, kind: RewardType)

  function ToPbRewardType(t: RpcRewardType): Outcome<RewardType>
  {
    match t
    case TypeFee => Ok(Fee)
    case TypeRent => Ok(Rent)
    case TypeVoting => Ok(Voting)
    case TypeStaking => Ok(Staking)
    case OtherType(_) => Panic
  }

  function Convert(r: RpcReward): Outcome<Reward>
  {
    var t :- ToPbRewardType(r.kind);
    Ok(Reward(r.pubkey, r.lamports, r.postBalance, t))
  }

  function Restore(r: Reward): RpcReward
  {
    RpcReward(r.pubkey, r.lamports, r.postBalance,
              match r.kind
              case Unspecified => OtherType("")
              case Fee => TypeFee
              case Rent => TypeRent
              case Staking => TypeStaking
              case Voting => TypeVoting)
  }

  /** A reward of a supported type is recovered from its converted form; the others panic. */
  lemma RewardComesBack(r: RpcReward)
    ensures Convert(r).Ok? ==> Restore(Convert(r).value) == r
    ensures Convert(r).Ok? <==> !r.kind.OtherType?
    ensures Convert(r).Ok? || Convert(r).Panic?
  {
  }

  // ----- the order -----

  predicate Ordered(rs: seq<Reward>)
  {
    forall i, j :: 0 <= i < j < |rs| ==> rs[i].lamports <= rs[j].lamports
  }

  function Lamports(rs: seq<Reward>): (ls: seq<int>)
    ensures |ls| == |rs| && forall i :: 0 <= i < |rs| ==> ls[i] == rs[i].lamports
  {
    seq(|rs|, i requires 0 <= i < |rs| => rs[i].lamports)
  }

  function Total(ls: seq<int>): int
  {
    if ls == [] then 0 else ls[0] + Total(ls[1..])
  }

  /** `slices.SortFunc` by lamports belongs to a library: any function that puts a slice in order.
      Which of two rewards with equal lamports comes first is up to it. */
  type Sorter = seq<Reward> -> seq<Reward>

  ghost predicate IsSort(sort: Sorter)
  {
    forall rs: seq<Reward> :: Ordered(sort(rs)) && multiset(sort(rs)) == multiset(rs)
  }

  // ----- one such function: insertion, which the library uses for short slices -----

  /** `x` put before every element at the end that has more lamports. */
  function Insert(rs: seq<Reward>, x: Reward): seq<Reward>
  {
    if rs == [] || Last(rs).lamports <= x.lamports then rs + [x]
    else Insert(rs[..|rs| - 1], x) + [Last(rs)]
  }

  function SortByLamports(rs: seq<Reward>): seq<Reward>
  {
    if rs == [] then [] else Insert(SortByLamports(rs[..|rs| - 1]), Last(rs))
  }

  lemma MultisetSnoc<T>(s: seq<T>, x: T)
    ensures multiset(s + [x]) == multiset(s) + multiset{x}
  {
  }

  lemma {:induction false} InsertKeepsAll(rs: seq<Reward>, x: Reward)
    ensures multiset(Insert(rs, x)) == multiset(rs) + multiset{x}
  {
    MultisetSnoc(rs, x);
    if rs != [] && Last(rs).lamports > x.lamports {
      var init := rs[..|rs| - 1];
      InsertKeepsAll(init, x);
      MultisetSnoc(Insert(init, x), Last(rs));
      MultisetSnoc(init, Last(rs));
      assert rs == init + [Last(rs)];
    }
  }

  predicate AtMost(rs: seq<Reward>, bound: int)
  {
    forall i :: 0 <= i < |rs| ==> rs[i].lamports <= bound
  }

  lemma {:induction false} InsertKeepsBound(rs: seq<Reward>, x: Reward, bound: int)
    requires AtMost(rs, bound) && x.lamports <= bound
    ensures AtMost(Insert(rs, x), bound)
  {
    if rs != [] && Last(rs).lamports > x.lamports { InsertKeepsBound(rs[..|rs| - 1], x, bound); }
  }

  lemma {:induction false} InsertKeepsOrder(rs: seq<Reward>, x: Reward)
    requires Ordered(rs)
    ensures Ordered(Insert(rs, x))
  {
    if rs != [] && Last(rs).lamports > x.lamports {
      InsertKeepsOrder(rs[..|rs| - 1], x);
      InsertKeepsBound(rs[..|rs| - 1], x, Last(rs).lamports);
    }
  }

  lemma SortStep(init: seq<Reward>, last: Reward)
    ensures SortByLamports(init + [last]) == Insert(SortByLamports(init), last)
  {
    assert (init + [last])[..|init|] == init;
  }

  lemma {:induction false} SortIsOrderedPermutation(rs: seq<Reward>)
    ensures Ordered(SortByLamports(rs))
    ensures multiset(SortByLamports(rs)) == multiset(rs)
  {
    if rs != [] {
      var init, last := rs[..|rs| - 1], Last(rs);
      assert rs == init + [last];
      SortIsOrderedPermutation(init);
      SortStep(init, last);
      InsertKeepsOrder(SortByLamports(init), last);
      InsertKeepsAll(SortByLamports(init), last);
      MultisetSnoc(init, last);
    }
  }

  lemma InsertionIsSort()
    ensures IsSort(SortByLamports)
  {
    forall rs: seq<Reward> { SortIsOrderedPermutation(rs); }
  }

  // ----- one order for one multiset -----

  function Without<T>(s: seq<T>, j: nat): (rest: seq<T>)
    requires j < |s|
    ensures |rest| == |s| - 1
    ensures forall i :: 0 <= i < |rest| ==> rest[i] == if i < j then s[i] else s[i + 1]
  {
    s[..j] + s[j + 1..]
  }

  lemma MultisetWithout<T>(s: seq<T>, j: nat)
    requires j < |s|
    ensures multiset(Without(s, j)) == multiset(s) - multiset{s[j]}
  {
    assert s == s[..j] + [s[j]] + s[j + 1..];
  }

  /** The last of one arrangement is somewhere in the other; what is left still matches. */
  lemma FindLast<T>(a: seq<T>, b: seq<T>) returns (j: nat)
    requires multiset(a) == multiset(b) && a != []
    ensures j < |b| && b[j] == Last(a)
    ensures multiset(a[..|a| - 1]) == multiset(Without(b, j))
  {
    assert Last(a) in multiset(b);
    j :| 0 <= j < |b| && b[j] == Last(a);
    MultisetWithout(b, j);
    WithoutLast(a);
  }

  lemma WithoutLast<T>(a: seq<T>)
    requires a != []
    ensures multiset(a[..|a| - 1]) == multiset(a) - multiset{Last(a)}
  {
    MultisetSnoc(a[..|a| - 1], Last(a));
    assert a == a[..|a| - 1] + [Last(a)];
  }

  lemma LastIsGreatest(a: seq<Reward>, x: Reward)
    requires Ordered(a) && a != [] && x in multiset(a)
    ensures x.lamports <= Last(a).lamports
  {
    var i :| 0 <= i < |a| && a[i] == x;
  }

  lemma WithoutGreatest(b: seq<Reward>, j: nat)
    requires Ordered(b) && j < |b| && Last(b).lamports <= b[j].lamports
    ensures Ordered(Without(b, j))
    ensures Lamports(b) == Lamports(Without(b, j)) + [b[j].lamports]
  {
    assert forall i :: j <= i < |b| ==> b[j].lamports <= b[i].lamports <= b[|b| - 1].lamports;
  }

  /** Any two ordered arrangements of the same rewards list the same lamports. */
  lemma {:induction false} OneOrder(a: seq<Reward>, b: seq<Reward>)
    requires Ordered(a) && Ordered(b) && multiset(a) == multiset(b)
    ensures Lamports(a) == Lamports(b)
  {
    if a == [] {
      assert |multiset(b)| == 0;
    } else {
      var j := FindLast(a, b);
      LastIsGreatest(a, Last(b));
      WithoutGreatest(b, j);
      OneOrder(a[..|a| - 1], Without(b, j));
      assert Lamports(a) == Lamports(a[..|a| - 1]) + [Last(a).lamports];
    }
  }

  /** Whatever functions sort them: the same rewards end up with the same lamports in the same places. */
  lemma SortingIsOneOrder(sort: Sorter, other: Sorter, a: seq<Reward>, b: seq<Reward>)
    requires IsSort(sort) && IsSort(other) && multiset(a) == multiset(b)
    ensures Lamports(sort(a)) == Lamports(other(b))
  {
    OneOrder(sort(a), other(b));
  }

  // ----- toPBReward -----

  lemma SortKeepsLength(sort: Sorter, rs: seq<Reward>)
    requires IsSort(sort)
    ensures |sort(rs)| == |rs|
  {
    assert |multiset(sort(rs))| == |multiset(rs)|;
  }

  /** `slices.SortFunc`: the slice's elements, rearranged in place. */
  method SortFunc(sort: Sorter, a: array<Reward>)
    requires IsSort(sort)
    modifies a
    ensures a[..] == sort(old(a[..]))
  {
    var sorted := sort(a[..]);
    SortKeepsLength(sort, a[..]);
    forall i | 0 <= i < a.Length {
      a[i] := sorted[i];
    }
  }

  function ToPbRewards(sort: Sorter, rewards: seq<RpcReward>): Outcome<seq<Reward>>
  {
    var out :- TryMap(Convert, rewards);
    Ok(sort(out))
  }

  method ToPBReward(sort: Sorter, rewards: seq<RpcReward>) returns (r: Outcome<seq<Reward>>)
    requires IsSort(sort)
    ensures r == ToPbRewards(sort, rewards)
  {
    var out: seq<Reward> := [];
    var i := 0;
    assert rewards[..0] == [];
    while i < |rewards|
      invariant 0 <= i <= |rewards| && TryMap(Convert, rewards[..i]) == Ok(out)
    {
      TryMapStep(Convert, rewards, i, out);
      var t :- ToPbRewardType(rewards[i].kind);
      out := out + [Reward(rewards[i].pubkey, rewards[i].lamports, rewards[i].postBalance, t)];
      i := i + 1;
    }
    assert rewards[..i] == rewards;
    var a := new Reward[|out|](k requires 0 <= k < |out| => out[k]);
    assert a[..] == out;
    SortFunc(sort, a);
    r := Ok(a[..]);
  }

  /** The result exists exactly when every type is supported, and then holds the conversion of each
      reward, as often as the input has it, by ascending lamports. */
  lemma ToPBRewardIsOrderedConversion(sort: Sorter, rewards: seq<RpcReward>)
    requires IsSort(sort)
    ensures ToPbRewards(sort, rewards).Ok? <==> forall i :: 0 <= i < |rewards| ==> !rewards[i].kind.OtherType?
    ensures ToPbRewards(sort, rewards).Ok? ==> OrderedConversion(rewards, ToPbRewards(sort, rewards).value)
  {
    TryMapOk(Convert, rewards);
    assert forall r :: Convert(r).Ok? <==> !r.kind.OtherType?;
    var all := TryMap(Convert, rewards);
    if all.Ok? {
      forall i | 0 <= i < |rewards|
        ensures Restore(all.value[i]) == rewards[i]
      {
        RewardComesBack(rewards[i]);
      }
    }
  }

  /** `out` is ordered and, in some order, the rewards one for one. */
  ghost predicate OrderedConversion(rewards: seq<RpcReward>, out: seq<Reward>)
  {
    && Ordered(out)
    && exists all: seq<Reward> ::
         && |all| == |rewards|
         && multiset(out) == multiset(all)
         && forall i :: 0 <= i < |rewards| ==> Restore(all[i]) == rewards[i]
  }
}
