/** Where an accepted chain leads: following `_find_issuer` upwards from the end entity. */
module PathAnchors {
  import opened Options
  import opened PathValidator

  /** A position of the walk. */
  datatype Position = Leaf | At(i: nat) | Anchored(a: nat) | Lost

  function Here(v: Input, p: Position): Cert
    requires p.Leaf? || (p.At? && p.i < |v.intermediates|)
  {
    if p.Leaf? then v.endEntity else v.intermediates[p.i]
  }

  predicate OnPath(v: Input, p: Position) {
    p.Leaf? || (p.At? && p.i < |v.intermediates|)
  }

  function Up(v: Input, p: Position): (q: Position)
    ensures q.At? ==> q.i < |v.intermediates|
    ensures q.Anchored? ==> q.a < |v.anchors| || q == p
    ensures !q.Leaf?
  {
    if OnPath(v, p) then
      match FindIssuer(v, Here(v, p))
      case Intermediate(i) => At(i)
      case Anchor(a) => Anchored(a)
      case Nowhere => Lost
    else if p.Anchored? then p else Lost
  }

  /** The walk after k steps. */
  function Walk(v: Input, k: nat): (p: Position)
    ensures p.At? ==> p.i < |v.intermediates|
    ensures p.Anchored? ==> p.a < |v.anchors|
    ensures p.Leaf? <==> k == 0
  {
    if k == 0 then Leaf else Up(v, Walk(v, k - 1))
  }

  /** Every step an accepted chain's walk takes is to an issuer whose signature verifies. */
  predicate VerifiedStep(v: Input, p: Position) {
    OnPath(v, p) ==> Verified(v, Here(v, p))
  }

  lemma {:induction false} AcceptedWalk(v: Input, k: nat)
    requires Accepts(v)
    ensures !Walk(v, k).Lost? && VerifiedStep(v, Walk(v, k))
  {
    if k > 0 {
      AcceptedWalk(v, k - 1);
      var p := Walk(v, k - 1);
      if p.At? { assert Verified(v, v.intermediates[p.i]); }
    }
  }

  lemma {:induction false} AnchoredStays(v: Input, k: nat, n: nat)
    requires k <= n && Walk(v, k).Anchored?
    ensures Walk(v, n) == Walk(v, k)
    decreases n
  {
    if k < n { AnchoredStays(v, k, n - 1); }
  }

  /** The names do not lead in circles: some rank strictly falls along the walk's
      intermediates. It speaks of names only, not of anchors or signatures. */
  ghost predicate Descends(v: Input) {
    exists rank: seq<nat> :: Ranks(v, rank)
  }

  ghost predicate Ranks(v: Input, rank: seq<nat>) {
    && |rank| == |v.intermediates|
    && forall k: nat :: Walk(v, k).At? ==> Falls(v, rank, Walk(v, k))
  }

  predicate Falls(v: Input, rank: seq<nat>, p: Position)
    requires p.At? && p.i < |v.intermediates| == |rank|
  {
    Up(v, p).At? ==> rank[Up(v, p).i] < rank[p.i]
  }

  lemma {:induction false} RankFalls(v: Input, rank: seq<nat>, k: nat, n: nat)
    requires Ranks(v, rank) && k < n
    requires Walk(v, k).At? && Walk(v, n).At?
    ensures rank[Walk(v, n).i] < rank[Walk(v, k).i]
    decreases n
  {
    var before := Walk(v, n - 1);
    assert before.At?;
    assert Falls(v, rank, before);
    if k < n - 1 { RankFalls(v, rank, k, n - 1); }
  }

  predicate IsAt(v: Input, k: nat, i: nat) {
    Walk(v, k).At? && Walk(v, k).i == i
  }

  /** The intermediates visited in steps 1..n. */
  function Visited(v: Input, n: nat): (s: set<nat>)
    ensures forall i :: i in s ==> exists k :: 1 <= k <= n && IsAt(v, k, i)
  {
    if n == 0 then {}
    else if Walk(v, n).At? then
      assert IsAt(v, n, Walk(v, n).i);
      Visited(v, n - 1) + {Walk(v, n).i}
    else Visited(v, n - 1)
  }

  ghost function Below(n: nat): (s: set<nat>)
    ensures forall i: nat :: i in s <==> i < n
  {
    if n == 0 then {} else Below(n - 1) + {n - 1}
  }

  lemma {:induction false} BelowSize(n: nat)
    ensures |Below(n)| == n
  {
    if n > 0 {
      BelowSize(n - 1);
      AddSize(Below(n - 1), n - 1);
    }
  }

  lemma NotVisitedBefore(v: Input, rank: seq<nat>, n: nat)
    requires Ranks(v, rank) && n > 0 && Walk(v, n).At?
    ensures Walk(v, n).i !in Visited(v, n - 1)
  {
    if Walk(v, n).i in Visited(v, n - 1) {
      var k :| 1 <= k <= n - 1 && IsAt(v, k, Walk(v, n).i);
      RankFalls(v, rank, k, n);
    }
  }

  lemma {:induction false} VisitedSize(v: Input, rank: seq<nat>, n: nat)
    requires Ranks(v, rank) && forall k :: 1 <= k <= n ==> Walk(v, k).At?
    ensures |Visited(v, n)| == n
  {
    if n > 0 {
      VisitedSize(v, rank, n - 1);
      NotVisitedBefore(v, rank, n);
      AddSize(Visited(v, n - 1), Walk(v, n).i);
    }
  }

  lemma AddSize(s: set<nat>, x: nat)
    requires x !in s
    ensures |s + {x}| == |s| + 1
  {
  }

  lemma SubsetSize(a: set<nat>, b: set<nat>)
    requires a <= b
    ensures |a| <= |b|
  {
    assert b == a + (b - a);
  }

  /** With names that do not lead in circles, an accepted chain's walk reaches a trust anchor
      in at most len(intermediates) + 1 steps, every one of them verified. */
  lemma DescendingReachesAnchor(v: Input)
    requires Accepts(v) && Descends(v)
    ensures Walk(v, |v.intermediates| + 1).Anchored?
  {
    var rank :| Ranks(v, rank);
    var n := |v.intermediates| + 1;
    AcceptedWalk(v, n);
    if Walk(v, n).At? {
      forall k | 1 <= k <= n ensures Walk(v, k).At? {
        AcceptedWalk(v, k);
        if Walk(v, k).Anchored? { AnchoredStays(v, k, n); }
      }
      VisitedSize(v, rank, n);
      BelowSize(|v.intermediates|);
      SubsetSize(Visited(v, n), Below(|v.intermediates|));
    }
  }

  /** How many steps are left to an anchor, looking at most `fuel` ahead. */
  function StepsLeft(v: Input, p: Position, fuel: nat): nat
    decreases fuel
  {
    if p.Anchored? || fuel == 0 then 0 else 1 + StepsLeft(v, Up(v, p), fuel - 1)
  }

  lemma {:induction false} StepsLeftExact(v: Input, k: nat, first: nat, fuel: nat)
    requires k <= first <= k + fuel && Walk(v, first).Anchored?
    requires forall j :: 0 <= j < first ==> !Walk(v, j).Anchored?
    ensures StepsLeft(v, Walk(v, k), fuel) == first - k
    decreases first - k
  {
    if k < first {
      StepsLeftExact(v, k + 1, first, fuel - 1);
    }
  }

  lemma {:induction false} FirstAnchored(v: Input, n: nat) returns (first: nat)
    requires Walk(v, n).Anchored?
    ensures first <= n && Walk(v, first).Anchored? && forall j :: 0 <= j < first ==> !Walk(v, j).Anchored?
  {
    if n > 0 && Walk(v, n - 1).Anchored? {
      first := FirstAnchored(v, n - 1);
    } else {
      first := n;
      forall j | 0 <= j < n ensures !Walk(v, j).Anchored? {
        if Walk(v, j).Anchored? { AnchoredStays(v, j, n - 1); }
      }
    }
  }

  lemma ReachingDescends(v: Input, n: nat)
    requires Walk(v, n).Anchored?
    ensures Descends(v)
  {
    var first := FirstAnchored(v, n);
    var rank := seq(|v.intermediates|, i requires 0 <= i < |v.intermediates| => StepsLeft(v, At(i), first));
    forall k: nat | Walk(v, k).At? ensures Falls(v, rank, Walk(v, k)) {
      StepsLeftFall(v, k, first);
    }
    assert Ranks(v, rank);
  }

  lemma StepsLeftFall(v: Input, k: nat, first: nat)
    requires Walk(v, first).Anchored? && (forall j :: 0 <= j < first ==> !Walk(v, j).Anchored?) && Walk(v, k).At?
    ensures Walk(v, k + 1).At? ==> StepsLeft(v, Walk(v, k + 1), first) < StepsLeft(v, Walk(v, k), first)
  {
    if first <= k { AnchoredStays(v, first, k); }
    StepsLeftExact(v, k, first, first);
    StepsLeftExact(v, k + 1, first, first);
  }

  /** For accepted chains, reaching an anchor at all, reaching one within
      len(intermediates) + 1 steps, and not running in circles are the same thing. */
  lemma AcceptedReachesAnchorIff(v: Input)
    requires Accepts(v)
    ensures Descends(v) <==> exists n: nat :: Walk(v, n).Anchored?
    ensures Descends(v) <==> Walk(v, |v.intermediates| + 1).Anchored?
  {
    if Descends(v) {
      DescendingReachesAnchor(v);
    }
    forall n: nat | Walk(v, n).Anchored? ensures Descends(v) {
      ReachingDescends(v, n);
    }
  }

  /** The condition is needed: a CA that issues itself, handed over as an intermediate, is
      accepted with no trust anchor at all. */
  lemma SelfIssuedAccepted(signs: (Cert, Cert) -> bool, time: int) returns (v: Input)
    requires forall a, b :: signs(a, b)
    ensures v.anchors == [] && Accepts(v) && Answer(v).isValid && !Descends(v)
  {
    var ca := Cert("CA", "CA", time, time, Some(Extensions(Some(BasicConstraints(true, None)), Some(true))));
    var leaf := Cert("leaf", "CA", time, time, Some(Extensions(None, None)));
    v := Input(signs, time, leaf, [ca], []);
    assert FindIssuer(v, ca) == Intermediate(0) && FindIssuer(v, leaf) == Intermediate(0);
    assert Accepts(v);
    AnswerIsAccepts(v);
    AcceptedReachesAnchorIff(v);
    forall n: nat ensures !Walk(v, n).Anchored? {
    }
  }
}
