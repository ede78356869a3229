/** `CertificatePathValidator`: the five independent checks, as loops over the certificates,
    and the verdict put together from them. */
module PathValidator {
  import opened Options

  datatype BasicConstraints = BasicConstraints(ca: bool, pathLen: Option<nat>)

  /** The extensions the validator looks at; `keyCertSign` is the bit of Key Usage. */
  datatype Extensions = Extensions(basic: Option<BasicConstraints>, keyCertSign: Option<bool>)

  /** `exts` is None when the extensions do not parse and reading them raises. */
  datatype Cert = Cert(subject: string, issuer: string, notBefore: int, notAfter: int, exts: Option<Extensions>)

  /** One call of the validator. `signs(parent, child)` is the signature check. */
  datatype Input = Input(signs: (Cert, Cert) -> bool, time: int, endEntity: Cert, intermediates: seq<Cert>, anchors: seq<Cert>)

  /** A complaint about the end entity (`at` is None) or about one intermediate. */
  datatype Error =
    | NoIssuer(at: Option<nat>)
    | BadSignature(at: Option<nat>)
    | NotYetValid(at: Option<nat>)
    | Expired(at: Option<nat>)
    | NotCa(index: nat)
    | NoBasicConstraints(index: nat)
    | NoKeyCertSign(index: nat)
    | PathTooLong(index: nat)
    | ValidationException

  datatype Warning = EndEntityIsCa | NoKeyUsage(index: nat)

  datatype Result = Result(isValid: bool, errors: seq<Error>, warnings: seq<Warning>)

  // ---- the checks, certificate by certificate ------------------------------------------

  function FirstNamed(certs: seq<Cert>, name: string): Option<nat>
  {
    if certs == [] then None
    else if certs[0].subject == name then Some(0)
    else match FirstNamed(certs[1..], name)
      case None => None
      case Some(i) => Some(i + 1)
  }

  lemma {:induction false} FirstNamedIsFirst(certs: seq<Cert>, name: string)
    ensures match FirstNamed(certs, name)
            case None => forall i :: 0 <= i < |certs| ==> certs[i].subject != name
            case Some(k) => k < |certs| && certs[k].subject == name && forall i :: 0 <= i < k ==> certs[i].subject != name
  {
    if certs != [] {
      FirstNamedIsFirst(certs[1..], name);
      assert forall i :: 0 < i < |certs| ==> certs[i] == certs[1..][i - 1];
    }
  }

  /** Where `_find_issuer` finds a certificate's issuer: by name, intermediates first. */
  datatype Place = Intermediate(i: nat) | Anchor(i: nat) | Nowhere

  function FindIssuer(v: Input, c: Cert): (p: Place)
    ensures p.Intermediate? ==> p.i < |v.intermediates| && v.intermediates[p.i].subject == c.issuer
    ensures p.Anchor? ==> p.i < |v.anchors| && v.anchors[p.i].subject == c.issuer
                          && forall i :: 0 <= i < |v.intermediates| ==> v.intermediates[i].subject != c.issuer
    ensures p.Nowhere? ==> (forall i :: 0 <= i < |v.intermediates| ==> v.intermediates[i].subject != c.issuer)
                           && (forall i :: 0 <= i < |v.anchors| ==> v.anchors[i].subject != c.issuer)
  {
    FirstNamedIsFirst(v.intermediates, c.issuer);
    FirstNamedIsFirst(v.anchors, c.issuer);
    match FirstNamed(v.intermediates, c.issuer)
    case Some(i) => Intermediate(i)
    case None =>
      match FirstNamed(v.anchors, c.issuer)
      case Some(i) => Anchor(i)
      case None => Nowhere
  }

  function CertAt(v: Input, p: Place): Cert
    requires p.Intermediate? ==> p.i < |v.intermediates|
    requires p.Anchor? ==> p.i < |v.anchors|
    requires !p.Nowhere?
  {
    if p.Intermediate? then v.intermediates[p.i] else v.anchors[p.i]
  }

  function SignatureErrors(v: Input, c: Cert, at: Option<nat>): seq<Error> {
    var p := FindIssuer(v, c);
    if p.Nowhere? then [NoIssuer(at)]
    else if v.signs(CertAt(v, p), c) then []
    else [BadSignature(at)]
  }

  function ValidityErrors(v: Input, c: Cert, at: Option<nat>): seq<Error> {
    if v.time < c.notBefore then [NotYetValid(at)]
    else if c.notAfter < v.time then [Expired(at)]
    else []
  }

  function PathLen(c: Cert): Option<nat> {
    if c.exts.Some? && c.exts.value.basic.Some? then c.exts.value.basic.value.pathLen else None
  }

  datatype Check = Signatures | Validity | Basic | KeyUsage | PathLength

  /** What one check finds wrong with the i-th intermediate. */
  function Findings(v: Input, k: Check, i: nat): seq<Error>
    requires i < |v.intermediates|
    requires v.intermediates[i].exts.Some? || k.Signatures? || k.Validity?
  {
    var c := v.intermediates[i];
    match k
    case Signatures => SignatureErrors(v, c, Some(i))
    case Validity => ValidityErrors(v, c, Some(i))
    case Basic =>
      if c.exts.value.basic.None? then [NoBasicConstraints(i)]
      else if !c.exts.value.basic.value.ca then [NotCa(i)]
      else []
    case KeyUsage => if c.exts.value.keyCertSign == Some(false) then [NoKeyCertSign(i)] else []
    case PathLength =>
      if PathLen(c).Some? && |v.intermediates| - i - 1 > PathLen(c).value then [PathTooLong(i)] else []
  }

  predicate Readable(v: Input, n: nat)
    requires n <= |v.intermediates|
  {
    forall i :: 0 <= i < n ==> v.intermediates[i].exts.Some?
  }

  /** The errors one check collects over the first n intermediates. */
  function Collected(v: Input, k: Check, n: nat): seq<Error>
    requires n <= |v.intermediates|
    requires Readable(v, n) || k.Signatures? || k.Validity?
    decreases n
  {
    if n == 0 then [] else Collected(v, k, n - 1) + Findings(v, k, n - 1)
  }

  /** One check finds nothing wrong with the first n intermediates. */
  ghost predicate Clean(v: Input, k: Check, n: nat)
    requires n <= |v.intermediates|
    requires Readable(v, n) || k.Signatures? || k.Validity?
  {
    forall i :: 0 <= i < n ==> Findings(v, k, i) == []
  }

  lemma CollectedStep(v: Input, k: Check, n: nat, before: seq<Error>, found: seq<Error>)
    requires 0 < n <= |v.intermediates|
    requires Readable(v, n) || k.Signatures? || k.Validity?
    requires before == Collected(v, k, n - 1) && found == Findings(v, k, n - 1)
    ensures Collected(v, k, n) == before + found
  {
  }

  lemma CollectedEmpty(v: Input, k: Check, n: nat)
    requires n <= |v.intermediates|
    requires Readable(v, n) || k.Signatures? || k.Validity?
    ensures Collected(v, k, n) == [] <==> Clean(v, k, n)
  {
    var all := Collected(v, k, n);
    CollectedReports(v, k, n);
    forall i | 0 <= i < n ensures Findings(v, k, i) == [] <==> forall e :: e in all ==> Position(e) != i + 1 {
      FindingsAre(v, k, i);
      FoundIn(all, Findings(v, k, i), i);
    }
    if all != [] {
      assert all[0] in all && Findings(v, k, Position(all[0]) - 1) != [];
    }
  }

  lemma FoundIn(all: seq<Error>, found: seq<Error>, i: nat)
    requires forall e :: e in found <==> e in all && Position(e) == i + 1
    ensures found == [] <==> forall e :: e in all ==> Position(e) != i + 1
  {
    if found != [] {
      assert found[0] in found;
    }
  }

  /** The warnings of the Key Usage check. */
  function KeyUsageWarnings(v: Input, n: nat): seq<Warning>
    requires n <= |v.intermediates| && Readable(v, n)
  {
    if n == 0 then []
    else KeyUsageWarnings(v, n - 1) + if v.intermediates[n - 1].exts.value.keyCertSign.None? then [NoKeyUsage(n - 1)] else []
  }

  predicate AllReadable(v: Input) {
    Readable(v, |v.intermediates|) && v.endEntity.exts.Some?
  }

  /** What `validate_certificate_chain` answers. Certificates whose extensions cannot be read
      raise, and everything found before is thrown away; a check's warnings are kept only
      when that check also has errors. */
  function Answer(v: Input): Result {
    if !AllReadable(v) then Result(false, [ValidationException], [])
    else
      var n := |v.intermediates|;
      var basic, usage := Collected(v, Basic, n), Collected(v, KeyUsage, n);
      var errors := SignatureErrors(v, v.endEntity, None) + Collected(v, Signatures, n)
                    + (ValidityErrors(v, v.endEntity, None) + Collected(v, Validity, n))
                    + basic + usage + Collected(v, PathLength, n);
      Result(errors == [], errors,
             (if basic != [] && IsCa(v.endEntity) then [EndEntityIsCa] else [])
             + (if usage != [] then KeyUsageWarnings(v, n) else []))
  }

  predicate IsCa(c: Cert) {
    c.exts.Some? && c.exts.value.basic.Some? && c.exts.value.basic.value.ca
  }

  class CertificatePathValidator {
    const signs: (Cert, Cert) -> bool
    var validationTime: int

    constructor (signs: (Cert, Cert) -> bool, now: int)
      ensures this.signs == signs && validationTime == now
    {
      this.signs := signs;
      validationTime := now;
    }

    method VerifySignatures(v: Input) returns (errors: seq<Error>)
      ensures errors == SignatureErrors(v, v.endEntity, None) + Collected(v, Signatures, |v.intermediates|)
    {
      errors := SignatureErrors(v, v.endEntity, None);
      for i := 0 to |v.intermediates|
        invariant errors == SignatureErrors(v, v.endEntity, None) + Collected(v, Signatures, i)
      {
        errors := errors + SignatureErrors(v, v.intermediates[i], Some(i));
      }
    }

    method CheckValidityPeriods(v: Input) returns (errors: seq<Error>)
      ensures errors == ValidityErrors(v, v.endEntity, None) + Collected(v, Validity, |v.intermediates|)
    {
      errors := ValidityErrors(v, v.endEntity, None);
      for i := 0 to |v.intermediates|
        invariant errors == ValidityErrors(v, v.endEntity, None) + Collected(v, Validity, i)
      {
        errors := errors + ValidityErrors(v, v.intermediates[i], Some(i));
      }
    }

    /** `raised` stands for the exception of unreadable extensions. */
    method CheckBasicConstraints(v: Input) returns (errors: seq<Error>, warnings: seq<Warning>, raised: bool)
      ensures raised <==> !AllReadable(v)
      ensures !raised ==> errors == Collected(v, Basic, |v.intermediates|)
      ensures !raised ==> warnings == if IsCa(v.endEntity) then [EndEntityIsCa] else []
    {
      errors, warnings, raised := [], [], false;
      for i := 0 to |v.intermediates|
        invariant Readable(v, i) && errors == Collected(v, Basic, i) && !raised && warnings == []
      {
        var exts := v.intermediates[i].exts;
        if exts.None? {
          raised := true;
          return;
        }
        if exts.value.basic.None? {
          errors := errors + [NoBasicConstraints(i)];
        } else if !exts.value.basic.value.ca {
          errors := errors + [NotCa(i)];
        }
      }
      if v.endEntity.exts.None? {
        raised := true;
      } else if IsCa(v.endEntity) {
        warnings := [EndEntityIsCa];
      }
    }

    method CheckKeyUsage(v: Input) returns (errors: seq<Error>, warnings: seq<Warning>)
      requires AllReadable(v)
      ensures errors == Collected(v, KeyUsage, |v.intermediates|)
      ensures warnings == KeyUsageWarnings(v, |v.intermediates|)
    {
      errors, warnings := [], [];
      for i := 0 to |v.intermediates|
        invariant errors == Collected(v, KeyUsage, i) && warnings == KeyUsageWarnings(v, i)
      {
        var usage := v.intermediates[i].exts.value.keyCertSign;
        if usage.None? {
          warnings := warnings + [NoKeyUsage(i)];
        } else if !usage.value {
          errors := errors + [NoKeyCertSign(i)];
        }
      }
    }

    method CheckPathLength(v: Input) returns (errors: seq<Error>)
      requires AllReadable(v)
      ensures errors == Collected(v, PathLength, |v.intermediates|)
    {
      errors := [];
      for i := 0 to |v.intermediates|
        invariant errors == Collected(v, PathLength, i)
      {
        var pathLen := PathLen(v.intermediates[i]);
        if pathLen.Some? {
          var remaining := |v.intermediates| - i - 1;
          if remaining > pathLen.value {
            errors := errors + [PathTooLong(i)];
          }
        }
      }
    }

    /** The time of an earlier call sticks: without one of its own, a call is judged at the
        last time given, not at the current time. */
    method Validate(endEntity: Cert, intermediates: seq<Cert>, anchors: seq<Cert>, time: Option<int>)
      returns (result: Result)
      modifies this
      ensures validationTime == time.GetOr(old(validationTime))
      ensures result == Answer(Input(signs, validationTime, endEntity, intermediates, anchors))
    {
      if time.Some? {
        validationTime := time.value;
      }
      result := Judge(Input(signs, validationTime, endEntity, intermediates, anchors));
    }

    method Judge(v: Input) returns (result: Result)
      ensures result == Answer(v)
    {
      var signatures := VerifySignatures(v);
      var validity := CheckValidityPeriods(v);
      var basic, basicWarnings, raised := CheckBasicConstraints(v);
      if raised {
        return Result(false, [ValidationException], []);
      }
      var usage, usageWarnings := CheckKeyUsage(v);
      var pathLength := CheckPathLength(v);
      var errors := Extended(Extended(signatures + validity, basic), usage) + pathLength;
      result := Result(errors == [], errors,
                       (if basic != [] then basicWarnings else []) + (if usage != [] then usageWarnings else []));
    }

    /** `errors.extend` of a sub-result, which only happens when it is not valid. */
    static function Extended(errors: seq<Error>, more: seq<Error>): (r: seq<Error>)
      ensures r == errors + more
    {
      if more != [] then errors + more else errors
    }
  }

  // ---- what acceptance means -------------------------------------------------------------

  predicate Verified(v: Input, c: Cert) {
    var p := FindIssuer(v, c);
    !p.Nowhere? && v.signs(CertAt(v, p), c)
  }

  predicate Timely(v: Input, c: Cert) {
    c.notBefore <= v.time <= c.notAfter
  }

  predicate UsageAllows(c: Cert) {
    c.exts.Some? ==> c.exts.value.keyCertSign != Some(false)
  }

  /** A certificate may sign certificates: a CA, and allowed to by Key Usage where it has one. */
  predicate MaySign(c: Cert) {
    IsCa(c) && UsageAllows(c)
  }

  predicate LengthsOk(certs: seq<Cert>) {
    forall i :: 0 <= i < |certs| ==> LengthOk(certs, i)
  }

  predicate LengthOk(certs: seq<Cert>, i: nat)
    requires i < |certs|
  {
    PathLen(certs[i]).Some? ==> |certs| - i - 1 <= PathLen(certs[i]).value
  }

  ghost predicate Accepts(v: Input) {
    && v.endEntity.exts.Some?
    && Verified(v, v.endEntity) && Timely(v, v.endEntity)
    && (forall i :: 0 <= i < |v.intermediates| ==>
          Verified(v, v.intermediates[i]) && Timely(v, v.intermediates[i]) && MaySign(v.intermediates[i]))
    && LengthsOk(v.intermediates)
  }

  /** The verdict is exactly the conjunction of the five checks on every certificate; and an
      accepted chain never carries a warning, not even for a CA end entity. */
  lemma AnswerIsAccepts(v: Input)
    ensures Answer(v).isValid <==> Accepts(v)
    ensures Answer(v).isValid <==> Answer(v).errors == []
    ensures Answer(v).isValid ==> Answer(v).warnings == []
  {
    if Accepts(v) { AcceptsReadable(v); }
    if AllReadable(v) {
      ChecksEmpty(v);
      AnswerEmpty(v);
    }
  }

  lemma AcceptsReadable(v: Input)
    requires Accepts(v)
    ensures AllReadable(v)
  {
    forall i | 0 <= i < |v.intermediates| ensures v.intermediates[i].exts.Some? {
      assert MaySign(v.intermediates[i]);
    }
  }

  lemma AnswerEmpty(v: Input)
    requires AllReadable(v)
    ensures var n := |v.intermediates|;
            Answer(v).errors == []
            <==> SignatureErrors(v, v.endEntity, None) == [] && Collected(v, Signatures, n) == []
                 && ValidityErrors(v, v.endEntity, None) == [] && Collected(v, Validity, n) == []
                 && Collected(v, Basic, n) == [] && Collected(v, KeyUsage, n) == [] && Collected(v, PathLength, n) == []
  {
  }

  lemma SignaturesEmpty(v: Input)
    ensures Collected(v, Signatures, |v.intermediates|) == []
       <==> forall i :: 0 <= i < |v.intermediates| ==> Verified(v, v.intermediates[i])
  {
    CollectedEmpty(v, Signatures, |v.intermediates|);
    assert forall i :: 0 <= i < |v.intermediates| ==> (Findings(v, Signatures, i) == [] <==> Verified(v, v.intermediates[i]));
  }

  lemma ValidityEmpty(v: Input)
    ensures Collected(v, Validity, |v.intermediates|) == []
       <==> forall i :: 0 <= i < |v.intermediates| ==> Timely(v, v.intermediates[i])
  {
    CollectedEmpty(v, Validity, |v.intermediates|);
    assert forall i :: 0 <= i < |v.intermediates| ==> (Findings(v, Validity, i) == [] <==> Timely(v, v.intermediates[i]));
  }

  lemma BasicEmpty(v: Input)
    requires AllReadable(v)
    ensures Collected(v, Basic, |v.intermediates|) == []
       <==> forall i :: 0 <= i < |v.intermediates| ==> IsCa(v.intermediates[i])
  {
    CollectedEmpty(v, Basic, |v.intermediates|);
    assert forall i :: 0 <= i < |v.intermediates| ==> (Findings(v, Basic, i) == [] <==> IsCa(v.intermediates[i]));
  }

  lemma KeyUsageEmpty(v: Input)
    requires AllReadable(v)
    ensures Collected(v, KeyUsage, |v.intermediates|) == []
       <==> forall i :: 0 <= i < |v.intermediates| ==> UsageAllows(v.intermediates[i])
  {
    CollectedEmpty(v, KeyUsage, |v.intermediates|);
    assert forall i :: 0 <= i < |v.intermediates| ==> (Findings(v, KeyUsage, i) == [] <==> UsageAllows(v.intermediates[i]));
  }

  lemma PathLengthEmpty(v: Input)
    requires AllReadable(v)
    ensures Collected(v, PathLength, |v.intermediates|) == [] <==> LengthsOk(v.intermediates)
  {
    CollectedEmpty(v, PathLength, |v.intermediates|);
    assert forall i :: 0 <= i < |v.intermediates| ==>
      (Findings(v, PathLength, i) == [] <==> LengthOk(v.intermediates, i));
  }

  lemma ChecksEmpty(v: Input)
    requires AllReadable(v)
    ensures var n := |v.intermediates|;
            Accepts(v)
            <==> SignatureErrors(v, v.endEntity, None) == [] && Collected(v, Signatures, n) == []
                 && ValidityErrors(v, v.endEntity, None) == [] && Collected(v, Validity, n) == []
                 && Collected(v, Basic, n) == [] && Collected(v, KeyUsage, n) == [] && Collected(v, PathLength, n) == []
  {
    SignaturesEmpty(v);
    ValidityEmpty(v);
    BasicEmpty(v);
    KeyUsageEmpty(v);
    PathLengthEmpty(v);
  }

  // ---- which errors, and in what order ----------------------------------------------------

  /** The certificate a complaint is about. */
  function CertOf(v: Input, at: Option<nat>): Option<Cert> {
    if at.None? then Some(v.endEntity)
    else if at.value < |v.intermediates| then Some(v.intermediates[at.value])
    else None
  }

  /** Some certificate given to the validator has this name. */
  predicate Named(v: Input, name: string) {
    || (exists i :: 0 <= i < |v.intermediates| && v.intermediates[i].subject == name)
    || (exists i :: 0 <= i < |v.anchors| && v.anchors[i].subject == name)
  }

  /** The certificate its issuer's name leads to: the first intermediate so named, or else the
      first anchor. */
  ghost predicate Issues(v: Input, issuer: Cert, c: Cert) {
    || (exists i :: 0 <= i < |v.intermediates| && v.intermediates[i] == issuer && FirstSuch(v.intermediates, c.issuer, i))
    || ((forall i :: 0 <= i < |v.intermediates| ==> v.intermediates[i].subject != c.issuer)
        && exists i :: 0 <= i < |v.anchors| && v.anchors[i] == issuer && FirstSuch(v.anchors, c.issuer, i))
  }

  predicate FirstSuch(certs: seq<Cert>, name: string, i: nat)
    requires i < |certs|
  {
    certs[i].subject == name && forall j :: 0 <= j < i ==> certs[j].subject != name
  }

  lemma IssuerIs(v: Input, c: Cert)
    ensures FindIssuer(v, c).Nowhere? <==> !Named(v, c.issuer)
    ensures !FindIssuer(v, c).Nowhere? ==> forall issuer :: Issues(v, issuer, c) <==> issuer == CertAt(v, FindIssuer(v, c))
  {
    FirstNamedIsFirst(v.intermediates, c.issuer);
    FirstNamedIsFirst(v.anchors, c.issuer);
    var p := FindIssuer(v, c);
    if p.Intermediate? {
      assert FirstSuch(v.intermediates, c.issuer, p.i);
      forall i | 0 <= i < |v.intermediates| && FirstSuch(v.intermediates, c.issuer, i) ensures i == p.i {
      }
    } else if p.Anchor? {
      assert FirstSuch(v.anchors, c.issuer, p.i);
      forall i | 0 <= i < |v.anchors| && FirstSuch(v.anchors, c.issuer, i) ensures i == p.i {
      }
    }
  }

  /** The defect an error stands for. */
  ghost predicate Defect(v: Input, e: Error) {
    match e
    case NoIssuer(at) => CertOf(v, at).Some? && !Named(v, CertOf(v, at).value.issuer)
    case BadSignature(at) =>
      CertOf(v, at).Some? && exists issuer :: Issues(v, issuer, CertOf(v, at).value) && !v.signs(issuer, CertOf(v, at).value)
    case NotYetValid(at) => CertOf(v, at).Some? && v.time < CertOf(v, at).value.notBefore
    case Expired(at) =>
      CertOf(v, at).Some? && CertOf(v, at).value.notBefore <= v.time && CertOf(v, at).value.notAfter < v.time
    case NotCa(i) =>
      i < |v.intermediates| && v.intermediates[i].exts.Some? && v.intermediates[i].exts.value.basic.Some?
      && !v.intermediates[i].exts.value.basic.value.ca
    case NoBasicConstraints(i) =>
      i < |v.intermediates| && v.intermediates[i].exts.Some? && v.intermediates[i].exts.value.basic.None?
    case NoKeyCertSign(i) =>
      i < |v.intermediates| && v.intermediates[i].exts.Some? && v.intermediates[i].exts.value.keyCertSign == Some(false)
    case PathTooLong(i) =>
      i < |v.intermediates| && v.intermediates[i].exts.Some? && v.intermediates[i].exts.value.basic.Some?
      && v.intermediates[i].exts.value.basic.value.pathLen.Some?
      && v.intermediates[i].exts.value.basic.value.pathLen.value < |v.intermediates| - 1 - i
    case ValidationException => false
  }

  /** Which check reports an error, and which certificate it is about, the end entity first. */
  function Phase(e: Error): nat {
    match e
    case NoIssuer(_) => 0
    case BadSignature(_) => 0
    case NotYetValid(_) => 1
    case Expired(_) => 1
    case NotCa(_) => 2
    case NoBasicConstraints(_) => 2
    case NoKeyCertSign(_) => 3
    case PathTooLong(_) => 4
    case ValidationException => 5
  }

  function Position(e: Error): nat {
    match e
    case NoIssuer(at) => if at.None? then 0 else at.value + 1
    case BadSignature(at) => if at.None? then 0 else at.value + 1
    case NotYetValid(at) => if at.None? then 0 else at.value + 1
    case Expired(at) => if at.None? then 0 else at.value + 1
    case NotCa(i) => i + 1
    case NoBasicConstraints(i) => i + 1
    case NoKeyCertSign(i) => i + 1
    case PathTooLong(i) => i + 1
    case ValidationException => 0
  }

  predicate Earlier(a: Error, b: Error) {
    Phase(a) < Phase(b) || (Phase(a) == Phase(b) && Position(a) < Position(b))
  }

  predicate Ordered(errors: seq<Error>) {
    forall i, j :: 0 <= i < j < |errors| ==> Earlier(errors[i], errors[j])
  }

  function PhaseOf(k: Check): nat {
    match k
    case Signatures => 0
    case Validity => 1
    case Basic => 2
    case KeyUsage => 3
    case PathLength => 4
  }

  /** What a check finds wrong with an intermediate is one of its defects, the only one of this
      check. */
  lemma FindingsAre(v: Input, k: Check, i: nat)
    requires i < |v.intermediates| && (v.intermediates[i].exts.Some? || k.Signatures? || k.Validity?)
    ensures |Findings(v, k, i)| <= 1
    ensures forall e :: e in Findings(v, k, i) <==> Phase(e) == PhaseOf(k) && Position(e) == i + 1 && Defect(v, e)
  {
    IssuerIs(v, v.intermediates[i]);
  }

  lemma EndEntityErrorsAre(v: Input)
    ensures |SignatureErrors(v, v.endEntity, None)| <= 1 && |ValidityErrors(v, v.endEntity, None)| <= 1
    ensures forall e :: e in SignatureErrors(v, v.endEntity, None) <==> Phase(e) == 0 && Position(e) == 0 && Defect(v, e)
    ensures forall e :: e in ValidityErrors(v, v.endEntity, None) <==> Phase(e) == 1 && Position(e) == 0 && Defect(v, e)
  {
    IssuerIs(v, v.endEntity);
  }

  /** The errors of one phase, up to a position: all of its defects there, in order. */
  ghost predicate Reports(v: Input, errors: seq<Error>, phase: nat, least: nat, most: nat) {
    && Ordered(errors)
    && forall e :: e in errors <==> Phase(e) == phase && least <= Position(e) <= most && Defect(v, e)
  }

  lemma {:induction false} CollectedReports(v: Input, k: Check, n: nat)
    requires n <= |v.intermediates| && (Readable(v, n) || k.Signatures? || k.Validity?)
    ensures Reports(v, Collected(v, k, n), PhaseOf(k), 1, n)
    decreases n
  {
    if n > 0 {
      var before, found := Collected(v, k, n - 1), Findings(v, k, n - 1);
      CollectedReports(v, k, n - 1);
      FindingsAre(v, k, n - 1);
      CollectedStep(v, k, n, before, found);
      ReportsOn(v, before, found, PhaseOf(k), n);
    }
  }

  lemma ReportsOn(v: Input, before: seq<Error>, found: seq<Error>, phase: nat, n: nat)
    requires n > 0 && Reports(v, before, phase, 1, n - 1)
    requires |found| <= 1 && forall e :: e in found <==> Phase(e) == phase && Position(e) == n && Defect(v, e)
    ensures Reports(v, before + found, phase, 1, n)
  {
  }

  /** The end entity's error, if any, and then those of the intermediates. */
  lemma FirstReports(v: Input, first: seq<Error>, rest: seq<Error>, phase: nat, n: nat)
    requires |first| <= 1 && (forall e :: e in first <==> Phase(e) == phase && Position(e) == 0 && Defect(v, e))
    requires Reports(v, rest, phase, 1, n)
    ensures Reports(v, first + rest, phase, 0, n)
  {
  }

  lemma PhasesInOrder(v: Input, a: seq<Error>, b: seq<Error>, from: nat, n: nat)
    requires Ordered(a) && (forall e :: e in a <==> Phase(e) < from && Position(e) <= n && Defect(v, e))
    requires Reports(v, b, from, 0, n)
    ensures Ordered(a + b)
    ensures forall e :: e in a + b <==> Phase(e) < from + 1 && Position(e) <= n && Defect(v, e)
  {
  }

  lemma LaterPhase(v: Input, b: seq<Error>, phase: nat, n: nat)
    requires Reports(v, b, phase, 1, n) && phase >= 2
    ensures Reports(v, b, phase, 0, n)
  {
  }

  lemma DefectPosition(v: Input, e: Error)
    requires Defect(v, e)
    ensures Position(e) <= |v.intermediates| && Phase(e) < 5
  {
  }

  /** Every defect is reported, once, and nothing else is: check by check, and within a check the
      end entity first and then the intermediates in order. */
  lemma ErrorsAreDefects(v: Input)
    requires AllReadable(v)
    ensures forall e :: e in Answer(v).errors <==> Defect(v, e)
    ensures Ordered(Answer(v).errors)
  {
    var n := |v.intermediates|;
    CollectedReports(v, Signatures, n);
    CollectedReports(v, Validity, n);
    CollectedReports(v, Basic, n);
    CollectedReports(v, KeyUsage, n);
    CollectedReports(v, PathLength, n);
    EndEntityErrorsAre(v);
    var first := SignatureErrors(v, v.endEntity, None) + Collected(v, Signatures, n);
    var second := ValidityErrors(v, v.endEntity, None) + Collected(v, Validity, n);
    FirstReports(v, SignatureErrors(v, v.endEntity, None), Collected(v, Signatures, n), 0, n);
    FirstReports(v, ValidityErrors(v, v.endEntity, None), Collected(v, Validity, n), 1, n);
    LaterPhase(v, Collected(v, Basic, n), 2, n);
    LaterPhase(v, Collected(v, KeyUsage, n), 3, n);
    LaterPhase(v, Collected(v, PathLength, n), 4, n);
    PhasesInOrder(v, first, second, 1, n);
    PhasesInOrder(v, first + second, Collected(v, Basic, n), 2, n);
    PhasesInOrder(v, first + second + Collected(v, Basic, n), Collected(v, KeyUsage, n), 3, n);
    PhasesInOrder(v, first + second + Collected(v, Basic, n) + Collected(v, KeyUsage, n), Collected(v, PathLength, n), 4, n);
    forall e | Defect(v, e) ensures Position(e) <= n && Phase(e) < 5 { DefectPosition(v, e); }
  }

  lemma {:induction false} UsageWarningsAre(v: Input, n: nat)
    requires n <= |v.intermediates| && Readable(v, n)
    ensures EndEntityIsCa !in KeyUsageWarnings(v, n)
    ensures forall i: nat :: NoKeyUsage(i) in KeyUsageWarnings(v, n) <==> i < n && v.intermediates[i].exts.value.keyCertSign.None?
  {
    if n > 0 { UsageWarningsAre(v, n - 1); }
  }

  /** A certificate whose extensions cannot be read raises, and then that is the one error. The
      warnings: a CA end entity is pointed out iff some intermediate is no CA, a missing Key Usage
      iff some other intermediate's forbids it to sign certificates. */
  lemma WarningsAre(v: Input)
    ensures !AllReadable(v) ==> Answer(v).errors == [ValidationException] && Answer(v).warnings == []
    ensures AllReadable(v) ==>
              (EndEntityIsCa in Answer(v).warnings <==>
                 IsCa(v.endEntity) && exists i :: 0 <= i < |v.intermediates| && !IsCa(v.intermediates[i]))
    ensures AllReadable(v) ==>
              forall i: nat :: NoKeyUsage(i) in Answer(v).warnings <==>
                && i < |v.intermediates| && v.intermediates[i].exts.value.keyCertSign.None?
                && exists j :: 0 <= j < |v.intermediates| && v.intermediates[j].exts.value.keyCertSign == Some(false)
  {
    if AllReadable(v) {
      UsageWarningsAre(v, |v.intermediates|);
      BasicEmpty(v);
      KeyUsageEmpty(v);
    }
  }
}
