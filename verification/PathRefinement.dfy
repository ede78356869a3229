/** The validator's independent loops against the stateful path validation of section 6.1 of
    RFC 5280. */
module PathRefinement {
  import opened Options
  import opened PathValidator

  predicate SelfIssued(c: Cert) {
    c.subject == c.issuer
  }

  function Smaller(a: nat, b: Option<nat>): nat {
    if b.Some? && b.value < a then b.value else a
  }

  // ---- the path length counter -------------------------------------------------------------

  /** `max_path_length` of section 6.1.2 (k), run over root-first CA certificates: step (l) of
      section 6.1.4 fails at zero and decrements unless the certificate is self-issued, and
      step (m) lowers it to the certificate's own constraint. */
  predicate CounterOk(cas: seq<Cert>, maxPathLength: nat) {
    cas == [] ||
    ((SelfIssued(cas[0]) || maxPathLength > 0)
     && CounterOk(cas[1..], Smaller(if SelfIssued(cas[0]) then maxPathLength else maxPathLength - 1, PathLen(cas[0]))))
  }

  function NonSelfIssued(cas: seq<Cert>): (n: nat)
    ensures n <= |cas|
    ensures n == |cas| <==> forall i :: 0 <= i < |cas| ==> !SelfIssued(cas[i])
  {
    if cas == [] then 0 else (if SelfIssued(cas[0]) then 0 else 1) + NonSelfIssued(cas[1..])
  }

  /** What the counter decides, without the counter: every constraint, and the initial budget,
      covers the non-self-issued certificates below it. */
  ghost predicate CounterMeaning(cas: seq<Cert>, maxPathLength: nat) {
    NonSelfIssued(cas) <= maxPathLength && forall i :: 0 <= i < |cas| ==> Covers(cas, i)
  }

  predicate Covers(cas: seq<Cert>, i: nat)
    requires i < |cas|
  {
    PathLen(cas[i]).Some? ==> NonSelfIssued(cas[i + 1..]) <= PathLen(cas[i]).value
  }

  lemma {:induction false} CounterDecides(cas: seq<Cert>, maxPathLength: nat)
    ensures CounterOk(cas, maxPathLength) <==> CounterMeaning(cas, maxPathLength)
    decreases |cas|
  {
    if cas != [] && (SelfIssued(cas[0]) || maxPathLength > 0) {
      CounterDecides(cas[1..], Smaller(if SelfIssued(cas[0]) then maxPathLength else maxPathLength - 1, PathLen(cas[0])));
      CounterStep(cas, maxPathLength);
    }
  }

  lemma CounterStep(cas: seq<Cert>, maxPathLength: nat)
    requires cas != [] && (SelfIssued(cas[0]) || maxPathLength > 0)
    ensures var left := if SelfIssued(cas[0]) then maxPathLength else maxPathLength - 1;
            CounterMeaning(cas, maxPathLength) <==> CounterMeaning(cas[1..], Smaller(left, PathLen(cas[0])))
  {
    CoversTail(cas);
    assert Covers(cas, 0) <==> (PathLen(cas[0]).Some? ==> NonSelfIssued(cas[1..]) <= PathLen(cas[0]).value);
  }

  lemma CoversTail(cas: seq<Cert>)
    requires cas != []
    ensures (forall i :: 0 <= i < |cas| ==> Covers(cas, i))
       <==> Covers(cas, 0) && forall i :: 0 <= i < |cas[1..]| ==> Covers(cas[1..], i)
  {
    forall i | 0 <= i < |cas[1..]| ensures Covers(cas[1..], i) <==> Covers(cas, i + 1) {
      assert cas[1..][i + 1..] == cas[i + 2..];
    }
    forall i | 0 < i < |cas| ensures Covers(cas[1..], i - 1) <==> Covers(cas, i) {
      assert cas[1..][i..] == cas[i + 1..];
    }
  }

  /** The initial value of the counter is the length of the path, end entity included. */
  predicate RfcLengthsOk(cas: seq<Cert>) {
    CounterOk(cas, |cas| + 1)
  }

  lemma {:induction false} NonSelfIssuedTail(cas: seq<Cert>, i: nat)
    requires i <= |cas|
    ensures NonSelfIssued(cas[i..]) <= |cas| - i
    ensures (forall j :: i <= j < |cas| ==> !SelfIssued(cas[j])) ==> NonSelfIssued(cas[i..]) == |cas| - i
  {
    assert |cas[i..]| == |cas| - i;
    assert forall j :: 0 <= j < |cas| - i ==> cas[i..][j] == cas[i + j];
  }

  predicate NoneSelfIssued(cas: seq<Cert>, from: nat) {
    forall i :: from <= i < |cas| ==> !SelfIssued(cas[i])
  }

  /** On root-first certificates the validator's loop is sound for every chain, and is the
      counter when none below the first is self-issued. */
  lemma PathLengthRefines(cas: seq<Cert>)
    ensures LengthsOk(cas) ==> RfcLengthsOk(cas)
    ensures NoneSelfIssued(cas, 1) ==> (LengthsOk(cas) <==> RfcLengthsOk(cas))
  {
    CounterDecides(cas, |cas| + 1);
    forall i | 0 <= i < |cas|
      ensures LengthOk(cas, i) ==> Covers(cas, i)
      ensures NoneSelfIssued(cas, 1) ==> (Covers(cas, i) <==> LengthOk(cas, i))
    {
      NonSelfIssuedTail(cas, i + 1);
    }
  }

  /** The same certificates with other path length constraints. */
  function WithLength(c: Cert, len: Option<nat>): Cert {
    c.(exts := Some(Extensions(Some(BasicConstraints(true, len)), None)))
  }

  function WithLengths(cas: seq<Cert>, lens: seq<Option<nat>>): (r: seq<Cert>)
    requires |lens| == |cas|
    ensures |r| == |cas|
    ensures forall i :: 0 <= i < |cas| ==> r[i] == WithLength(cas[i], lens[i])
  {
    if cas == [] then [] else [WithLength(cas[0], lens[0])] + WithLengths(cas[1..], lens[1..])
  }

  /** The loop and the counter agree on these certificates whatever their constraints. */
  ghost predicate AgreesForAllLengths(cas: seq<Cert>) {
    forall lens :: |lens| == |cas| ==> AgreesFor(cas, lens)
  }

  predicate AgreesFor(cas: seq<Cert>, lens: seq<Option<nat>>)
    requires |lens| == |cas|
  {
    LengthsOk(WithLengths(cas, lens)) == RfcLengthsOk(WithLengths(cas, lens))
  }

  /** Lengths that put one constraint, on the first certificate, and none elsewhere. */
  function OnlyFirst(n: nat, len: nat): (lens: seq<Option<nat>>)
    requires n > 0
    ensures |lens| == n && lens[0] == Some(len) && forall i :: 0 < i < n ==> lens[i] == None
  {
    [Some(len)] + NoLengths(n - 1)
  }

  function NoLengths(n: nat): (lens: seq<Option<nat>>)
    ensures |lens| == n && forall i :: 0 <= i < n ==> lens[i] == None
  {
    if n == 0 then [] else [None] + NoLengths(n - 1)
  }

  /** The refinement is exact: it fails for some constraints as soon as one certificate below
      the first is self-issued, where the loop rejects a path the counter admits. */
  lemma PathLengthRefinesIff(cas: seq<Cert>)
    ensures AgreesForAllLengths(cas) <==> NoneSelfIssued(cas, 1)
  {
    if NoneSelfIssued(cas, 1) {
      forall lens | |lens| == |cas| ensures AgreesFor(cas, lens) {
        PathLengthRefines(WithLengths(cas, lens));
      }
    } else {
      SelfIssuedDisagrees(cas);
    }
  }

  lemma SelfIssuedDisagrees(cas: seq<Cert>)
    requires !NoneSelfIssued(cas, 1)
    ensures !AgreesForAllLengths(cas)
  {
    var lens := OnlyFirst(|cas|, |cas| - 2);
    var other := WithLengths(cas, lens);
    assert PathLen(other[0]) == Some(|cas| - 2);
    assert !LengthOk(other, 0);
    SelfIssuedAdmitted(cas, other);
    assert !AgreesFor(cas, lens);
  }

  lemma SelfIssuedAdmitted(cas: seq<Cert>, other: seq<Cert>)
    requires !NoneSelfIssued(cas, 1) && |other| == |cas|
    requires forall i :: 0 <= i < |cas| ==> SelfIssued(other[i]) == SelfIssued(cas[i])
    requires PathLen(other[0]) == Some(|cas| - 2) && forall i :: 0 < i < |cas| ==> PathLen(other[i]).None?
    ensures RfcLengthsOk(other)
  {
    var k :| 1 <= k < |cas| && SelfIssued(cas[k]);
    var rest := other[1..];
    assert SelfIssued(rest[k - 1]);
    assert NonSelfIssued(rest) <= |cas| - 2;
    CounterDecides(other, |other| + 1);
  }

  // ---- the order the certificates are handed over in ------------------------------------

  function Reverse(cas: seq<Cert>): (r: seq<Cert>)
    ensures |r| == |cas| && forall i :: 0 <= i < |cas| ==> r[i] == cas[|cas| - 1 - i]
  {
    if cas == [] then [] else Reverse(cas[1..]) + [cas[0]]
  }

  /** Handed the same certificates leaf-first, as the path validation suite does, the loop
      compares each constraint with the number of certificates above it, not below it. */
  lemma LeafFirstMeasuresUpwards(cas: seq<Cert>)
    ensures LengthsOk(Reverse(cas)) <==> forall i :: 0 <= i < |cas| ==> UpwardsOk(cas, i)
  {
    var r := Reverse(cas);
    forall i | 0 <= i < |cas| ensures UpwardsOk(cas, i) <==> LengthOk(r, |cas| - 1 - i) {
      assert r[|cas| - 1 - i] == cas[i];
    }
    forall j | 0 <= j < |cas| ensures LengthOk(r, j) <==> UpwardsOk(cas, |cas| - 1 - j) {
      assert r[j] == cas[|cas| - 1 - j];
    }
  }

  predicate UpwardsOk(cas: seq<Cert>, i: nat)
    requires i < |cas|
  {
    PathLen(cas[i]).Some? ==> i <= PathLen(cas[i]).value
  }

  ghost predicate LeafFirstAgreesForAllLengths(cas: seq<Cert>) {
    forall lens :: |lens| == |cas| ==> LeafFirstAgreesFor(cas, lens)
  }

  predicate LeafFirstAgreesFor(cas: seq<Cert>, lens: seq<Option<nat>>)
    requires |lens| == |cas|
  {
    LengthsOk(Reverse(WithLengths(cas, lens))) == RfcLengthsOk(WithLengths(cas, lens))
  }

  /** Lengths that put one constraint, zero, on the last certificate, and none elsewhere. */
  function OnlyLast(n: nat): (lens: seq<Option<nat>>)
    requires n > 0
    ensures |lens| == n && lens[n - 1] == Some(0) && forall i :: 0 <= i < n - 1 ==> lens[i] == None
  {
    NoLengths(n - 1) + [Some(0)]
  }

  /** Leaf-first, the check is right for every choice of constraints only on chains with at
      most one intermediate; any longer one it rejects for a lowest CA that allows no
      intermediate below it, and has none. */
  lemma LeafFirstAgreesIff(cas: seq<Cert>)
    ensures LeafFirstAgreesForAllLengths(cas) <==> |cas| <= 1
  {
    if |cas| <= 1 {
      forall lens | |lens| == |cas| ensures LeafFirstAgreesFor(cas, lens) {
        ShortLeafFirst(WithLengths(cas, lens));
      }
    } else {
      LongLeafFirst(cas);
    }
  }

  lemma ShortLeafFirst(cas: seq<Cert>)
    requires |cas| <= 1
    ensures LengthsOk(Reverse(cas)) == RfcLengthsOk(cas)
  {
    LeafFirstMeasuresUpwards(cas);
    CounterDecides(cas, |cas| + 1);
    assert forall i :: 0 <= i < |cas| ==> UpwardsOk(cas, i) && cas[i + 1..] == [];
  }

  lemma LongLeafFirst(cas: seq<Cert>)
    requires |cas| > 1
    ensures !LeafFirstAgreesForAllLengths(cas)
  {
    var lens := OnlyLast(|cas|);
    var other := WithLengths(cas, lens);
    LeafFirstMeasuresUpwards(other);
    assert PathLen(other[|cas| - 1]) == Some(0) && !UpwardsOk(other, |cas| - 1);
    LastUnbounded(other);
    assert !LeafFirstAgreesFor(cas, lens);
  }

  /** A constraint on the last certificate alone bounds nothing. */
  lemma LastUnbounded(cas: seq<Cert>)
    requires cas != [] && forall i :: 0 <= i < |cas| - 1 ==> PathLen(cas[i]).None?
    ensures RfcLengthsOk(cas)
  {
    CounterDecides(cas, |cas| + 1);
    forall i | 0 <= i < |cas| ensures Covers(cas, i) {
      assert i == |cas| - 1 ==> cas[i + 1..] == [];
    }
  }

  // ---- the whole algorithm -----------------------------------------------------------------

  /** Section 6.1.3 (a): signature under the working key, validity, and the issuer name. */
  predicate BasicChecks(v: Input, working: Cert, c: Cert) {
    v.signs(working, c) && Timely(v, c) && c.issuer == working.subject
  }

  /** Sections 6.1.3 to 6.1.5 from the current working certificate on: the remaining CA
      certificates root-first, then the end entity. */
  predicate RfcPath(v: Input, working: Cert, maxPathLength: nat, rest: seq<Cert>)
    decreases rest
  {
    if rest == [] then v.endEntity.exts.Some? && BasicChecks(v, working, v.endEntity)
    else
      var c := rest[0];
      && BasicChecks(v, working, c)
      && MaySign(c)                                        // 6.1.4 (k), (n)
      && (SelfIssued(c) || maxPathLength > 0)              // 6.1.4 (l)
      && RfcPath(v, c, Smaller(if SelfIssued(c) then maxPathLength else maxPathLength - 1, PathLen(c)), rest[1..])
  }

  predicate RfcAccepts(v: Input, anchor: Cert) {
    RfcPath(v, anchor, |v.intermediates| + 1, v.intermediates)
  }

  /** The i-th link's issuer in a root-first path: the anchor, then each intermediate. */
  function Above(v: Input, anchor: Cert, i: nat): Cert
    requires i <= |v.intermediates|
  {
    if i == 0 then anchor else v.intermediates[i - 1]
  }

  function Link(v: Input, i: nat): Cert
    requires i <= |v.intermediates|
  {
    if i == |v.intermediates| then v.endEntity else v.intermediates[i]
  }

  /** Everything the algorithm checks from position k on, except the counter. */
  ghost predicate LinksOk(v: Input, anchor: Cert, k: nat)
    requires k <= |v.intermediates|
  {
    && v.endEntity.exts.Some?
    && (forall i :: k <= i <= |v.intermediates| ==> BasicChecks(v, Above(v, anchor, i), Link(v, i)))
    && (forall i :: k <= i < |v.intermediates| ==> MaySign(v.intermediates[i]))
  }

  lemma {:induction false} RfcPathDecides(v: Input, anchor: Cert, k: nat, maxPathLength: nat)
    requires k <= |v.intermediates|
    ensures RfcPath(v, Above(v, anchor, k), maxPathLength, v.intermediates[k..])
       <==> LinksOk(v, anchor, k) && CounterOk(v.intermediates[k..], maxPathLength)
    decreases |v.intermediates| - k
  {
    var rest := v.intermediates[k..];
    if k < |v.intermediates| {
      var c := v.intermediates[k];
      assert rest[0] == c && rest[1..] == v.intermediates[k + 1..];
      assert Link(v, k) == c && Above(v, anchor, k + 1) == c;
      if SelfIssued(c) || maxPathLength > 0 {
        RfcPathDecides(v, anchor, k + 1,
                       Smaller(if SelfIssued(c) then maxPathLength else maxPathLength - 1, PathLen(c)));
        LinksStep(v, anchor, k);
      }
    } else {
      assert Link(v, k) == v.endEntity;
    }
  }

  lemma LinksStep(v: Input, anchor: Cert, k: nat)
    requires k < |v.intermediates|
    ensures LinksOk(v, anchor, k)
       <==> BasicChecks(v, Above(v, anchor, k), Link(v, k)) && MaySign(v.intermediates[k]) && LinksOk(v, anchor, k + 1)
  {
  }

  /** Root-first, each certificate names the one above it as its issuer. */
  ghost predicate Chained(v: Input, anchor: Cert) {
    forall i :: 0 <= i <= |v.intermediates| ==> Link(v, i).issuer == Above(v, anchor, i).subject
  }

  /** No two CAs of the path share a name, and the anchor is the one found under its name. */
  ghost predicate DistinctNames(v: Input, anchor: Cert) {
    && (forall i, j :: 0 <= i < j < |v.intermediates| ==> v.intermediates[i].subject != v.intermediates[j].subject)
    && (forall i :: 0 <= i < |v.intermediates| ==> v.intermediates[i].subject != anchor.subject)
    && (exists a :: 0 <= a < |v.anchors| && v.anchors[a] == anchor
                    && forall b :: 0 <= b < |v.anchors| && v.anchors[b].subject == anchor.subject ==> v.anchors[b] == anchor)
  }

  lemma IssuerIsAbove(v: Input, anchor: Cert, i: nat)
    requires DistinctNames(v, anchor) && Chained(v, anchor) && i <= |v.intermediates|
    ensures !FindIssuer(v, Link(v, i)).Nowhere? && CertAt(v, FindIssuer(v, Link(v, i))) == Above(v, anchor, i)
  {
    var p := FindIssuer(v, Link(v, i));
    assert Link(v, i).issuer == Above(v, anchor, i).subject;
  }

  lemma ChainedNotSelfIssued(v: Input, anchor: Cert)
    requires DistinctNames(v, anchor) && Chained(v, anchor)
    ensures NoneSelfIssued(v.intermediates, 0)
  {
    forall i | 0 <= i < |v.intermediates| ensures !SelfIssued(v.intermediates[i]) {
      assert Link(v, i) == v.intermediates[i];
    }
  }

  /** What the validator checks of one link, wherever it found the issuer. */
  predicate LinkPasses(v: Input, i: nat)
    requires i <= |v.intermediates|
  {
    Verified(v, Link(v, i)) && Timely(v, Link(v, i)) && (i < |v.intermediates| ==> MaySign(v.intermediates[i]))
  }

  lemma AcceptsByLink(v: Input)
    ensures Accepts(v) <==>
            v.endEntity.exts.Some? && LengthsOk(v.intermediates) && forall i :: 0 <= i <= |v.intermediates| ==> LinkPasses(v, i)
  {
    assert LinkPasses(v, |v.intermediates|) <==> Verified(v, v.endEntity) && Timely(v, v.endEntity);
    assert forall i :: 0 <= i < |v.intermediates| ==>
      (LinkPasses(v, i) <==> Verified(v, v.intermediates[i]) && Timely(v, v.intermediates[i]) && MaySign(v.intermediates[i]));
  }

  lemma LinksOkByLink(v: Input, anchor: Cert)
    requires DistinctNames(v, anchor) && Chained(v, anchor)
    ensures LinksOk(v, anchor, 0) <==> v.endEntity.exts.Some? && forall i :: 0 <= i <= |v.intermediates| ==> LinkPasses(v, i)
  {
    forall i | 0 <= i <= |v.intermediates|
      ensures LinkPasses(v, i) <==>
              BasicChecks(v, Above(v, anchor, i), Link(v, i)) && (i < |v.intermediates| ==> MaySign(v.intermediates[i]))
    {
      IssuerIsAbove(v, anchor, i);
    }
  }

  lemma AcceptsLinks(v: Input, anchor: Cert)
    requires DistinctNames(v, anchor) && Chained(v, anchor)
    ensures Accepts(v) <==> LinksOk(v, anchor, 0) && LengthsOk(v.intermediates)
  {
    AcceptsByLink(v);
    LinksOkByLink(v, anchor);
  }

  /** Whole-algorithm refinement: on certificates with distinct CA names, section 6.1 of
      RFC 5280 accepts the path exactly when the validator accepts it and the path is in
      order. The order is the one thing the validator does not look at. */
  lemma ValidatorRefinesRfc(v: Input, anchor: Cert)
    requires DistinctNames(v, anchor)
    ensures RfcAccepts(v, anchor) <==> Accepts(v) && Chained(v, anchor)
    ensures RfcAccepts(v, anchor) <==> Answer(v).isValid && Chained(v, anchor)
  {
    AnswerIsAccepts(v);
    assert v.intermediates[0..] == v.intermediates;
    RfcPathDecides(v, anchor, 0, |v.intermediates| + 1);
    if Chained(v, anchor) {
      ChainedNotSelfIssued(v, anchor);
      AcceptsLinks(v, anchor);
      PathLengthRefines(v.intermediates);
    } else {
      assert !LinksOk(v, anchor, 0);
    }
  }
}
