/** A JSON Patch document (RFC 6902) applied to an update view, as
    `patchDoc.ApplyTo(view, ModelState)` does it: operations run in order;
    one whose path names no member of the view is reported in the model state
    and skipped, and the caller refuses the whole request when any error was
    reported, so that, as section 5 of RFC 6902 requires, the document as a
    whole either applies or does not. */
module JsonPatch {
  import opened Primitives
  import opened Entities
  import opened Views

  datatype OperationType = Add | Remove | Replace

  datatype Operation = Operation(op: OperationType, path: string, value: Text)

  type PatchDocument = seq<Operation>

  /** The members of the update view a path can name. */
  datatype Member = NameMember | DescriptionMember

  function LowerAscii(c: char): char {
    if 'A' <= c <= 'Z' then (c as int + 32) as char else c
  }

  predicate SameIgnoringCase(a: string, b: string) {
    |a| == |b| && forall k :: 0 <= k < |a| ==> LowerAscii(a[k]) == LowerAscii(b[k])
  }

  /** A path names a member when it is "/" followed by the member's name,
      matched without regard to ASCII case. */
  function Resolve(path: string): (r: Option<Member>)
    ensures r == Some(NameMember) <==> SameIgnoringCase(path, "/name")
    ensures r == Some(DescriptionMember) <==> SameIgnoringCase(path, "/description")
    ensures r.None? <==> !SameIgnoringCase(path, "/name") && !SameIgnoringCase(path, "/description")
  {
    if SameIgnoringCase(path, "/name") then Some(NameMember)
    else if SameIgnoringCase(path, "/description") then Some(DescriptionMember)
    else None
  }

  function Get(d: PointOfInterestForUpdateDto, m: Member): Text {
    match m
    case NameMember => d.name
    case DescriptionMember => d.description
  }

  function Set(d: PointOfInterestForUpdateDto, m: Member, v: Text): PointOfInterestForUpdateDto {
    match m
    case NameMember => d.(name := v)
    case DescriptionMember => d.(description := v)
  }

  /** What an operation leaves in the member it names. On an existing member
      of an object, "add" replaces the value (RFC 6902, section 4.1) and
      "replace" does (RFC 6902, section 4.3); "remove" on a property of a
      plain object resets it to the property's default, null. */
  function Written(o: Operation): (t: Text)
    ensures o.op == Remove ==> t.None?
    ensures o.op != Remove ==> t == o.value
  {
    if o.op == Remove then None else o.value
  }

  datatype ApplyResult = ApplyResult(document: PointOfInterestForUpdateDto, errors: set<ValidationError>)

  /** One operation: a path that names no member is reported and nothing
      else happens; otherwise the member named receives what the operation
      writes, the other member keeps its value and nothing is reported. */
  function ApplyOperation(o: Operation, r: ApplyResult): (a: ApplyResult)
    ensures Resolve(o.path).None? ==> a.document == r.document && a.errors == r.errors + {InvalidPatchOperation(o.path)}
    ensures Resolve(o.path).Some? ==> a.errors == r.errors && Get(a.document, Resolve(o.path).value) == Written(o)
    ensures Resolve(o.path).Some? ==> forall m :: m != Resolve(o.path).value ==> Get(a.document, m) == Get(r.document, m)
  {
    match Resolve(o.path)
    case None => r.(errors := r.errors + {InvalidPatchOperation(o.path)})
    case Some(m) => r.(document := Set(r.document, m, Written(o)))
  }

  /** The operations one after the other, none of them stopping the rest;
      errors are only ever added. */
  function ApplyAll(ops: PatchDocument, r: ApplyResult): (a: ApplyResult)
    ensures r.errors <= a.errors
    decreases |ops|
  {
    if ops == [] then r else ApplyAll(ops[1..], ApplyOperation(ops[0], r))
  }

  /** `patchDoc.ApplyTo(document, ModelState)` on a model state with no errors. */
  function ApplyTo(ops: PatchDocument, d: PointOfInterestForUpdateDto): (a: ApplyResult)
    ensures a.errors == PathErrors(ops)
  {
    ApplyAllErrors(ops, ApplyResult(d, {}));
    ApplyAll(ops, ApplyResult(d, {}))
  }

  /** The errors the operations of `ops` report: one per path that names no member. */
  function PathErrors(ops: PatchDocument): (e: set<ValidationError>)
    ensures e == {} <==> forall k :: 0 <= k < |ops| ==> Resolve(ops[k].path).Some?
    ensures forall k :: 0 <= k < |ops| && Resolve(ops[k].path).None? ==> InvalidPatchOperation(ops[k].path) in e
    decreases |ops|
  {
    if ops == [] then {}
    else
      (if Resolve(ops[0].path).None? then {InvalidPatchOperation(ops[0].path)} else {})
      + PathErrors(ops[1..])
  }

  /** Reference reading of a patch, member by member: scanning from the
      end, the first operation aimed at the member decides its value. */
  function LastWritten(ops: PatchDocument, m: Member, initial: Text): Text
    decreases |ops|
  {
    if ops == [] then initial
    else if Resolve(ops[|ops| - 1].path) == Some(m) then Written(ops[|ops| - 1])
    else LastWritten(ops[..|ops| - 1], m, initial)
  }

  /** The reference reading keeps a member's value when no operation is
      aimed at it. */
  lemma {:induction false} LastWrittenUntouched(ops: PatchDocument, m: Member, initial: Text)
    requires forall k :: 0 <= k < |ops| ==> Resolve(ops[k].path) != Some(m)
    ensures LastWritten(ops, m, initial) == initial
    decreases |ops|
  {
    if ops != [] {
      var front := ops[..|ops| - 1];
      assert forall k :: 0 <= k < |front| ==> front[k] == ops[k];
      LastWrittenUntouched(front, m, initial);
    }
  }

  /** The reference reading says that a member ends up holding what the LAST
      operation aimed at it wrote. */
  lemma {:induction false} LastWrittenByLast(ops: PatchDocument, m: Member, initial: Text, k: nat)
    requires k < |ops| && Resolve(ops[k].path) == Some(m)
    requires forall j :: k < j < |ops| ==> Resolve(ops[j].path) != Some(m)
    ensures LastWritten(ops, m, initial) == Written(ops[k])
    decreases |ops|
  {
    var n := |ops| - 1;
    if k < n {
      var front := ops[..n];
      assert Resolve(ops[n].path) != Some(m);
      assert front[k] == ops[k];
      assert forall j :: k < j < |front| ==> front[j] == ops[j];
      LastWrittenByLast(front, m, initial, k);
    }
  }

  lemma {:induction false} LastWrittenFront(ops: PatchDocument, m: Member, initial: Text)
    requires ops != []
    ensures LastWritten(ops, m, initial) == LastWritten(ops[1..], m, LastWritten([ops[0]], m, initial))
    decreases |ops|
  {
    if |ops| > 1 {
      var last := ops[|ops| - 1];
      if Resolve(last.path) != Some(m) {
        assert ops[..|ops| - 1][1..] == ops[1..][..|ops[1..]| - 1];
        LastWrittenFront(ops[..|ops| - 1], m, initial);
      }
    }
  }

  lemma {:induction false} ApplyAllErrors(ops: PatchDocument, r: ApplyResult)
    ensures ApplyAll(ops, r).errors == r.errors + PathErrors(ops)
    decreases |ops|
  {
    if ops != [] {
      ApplyAllErrors(ops[1..], ApplyOperation(ops[0], r));
    }
  }

  lemma {:induction false} ApplyAllMember(ops: PatchDocument, r: ApplyResult, m: Member)
    ensures Get(ApplyAll(ops, r).document, m) == LastWritten(ops, m, Get(r.document, m))
    decreases |ops|
  {
    if ops != [] {
      var r' := ApplyOperation(ops[0], r);
      ApplyAllMember(ops[1..], r', m);
      LastWrittenFront(ops, m, Get(r.document, m));
      assert Get(r'.document, m) == LastWritten([ops[0]], m, Get(r.document, m));
    }
  }

  /** Applying a patch to a document: it fails (reports errors) exactly when
      some operation's path names no member, and each member of the result is
      what the reference reading says. */
  lemma ApplyToMeaning(ops: PatchDocument, d: PointOfInterestForUpdateDto)
    ensures ApplyTo(ops, d).errors == PathErrors(ops)
    ensures ApplyTo(ops, d).errors == {} <==> forall k :: 0 <= k < |ops| ==> Resolve(ops[k].path).Some?
    ensures ApplyTo(ops, d).document.name == LastWritten(ops, NameMember, d.name)
    ensures ApplyTo(ops, d).document.description == LastWritten(ops, DescriptionMember, d.description)
  {
    ApplyAllErrors(ops, ApplyResult(d, {}));
    ApplyAllMember(ops, ApplyResult(d, {}), NameMember);
    ApplyAllMember(ops, ApplyResult(d, {}), DescriptionMember);
  }

  /** A document whose last operation names no member reports an error,
      however valid the operations before it are. */
  lemma InvalidLastOperationFails(ops: PatchDocument, d: PointOfInterestForUpdateDto)
    requires ops != [] && Resolve(ops[|ops| - 1].path).None?
    ensures InvalidPatchOperation(ops[|ops| - 1].path) in ApplyTo(ops, d).errors
  {
    ApplyToMeaning(ops, d);
  }
}
