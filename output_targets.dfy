/**
 * `validateOutputTargets`: checks the `type` of every output target the user
 * configured, reporting one error per unknown type, and replaces the
 * configuration's output targets with what the four per-kind validators return
 * for their share of the list, in the fixed order collection, custom element,
 * lazy, www.
 *
 * The valid-type list, the four kind predicates and the four validators are
 * defined elsewhere in the compiler; they are parameters here (`Kinds`), and
 * nothing is assumed about them.
 */
module OutputTargets {
  import opened Common
  import opened Text

  /** An output target: its `type`, and the other fields, which this step does not read. */
  datatype OutputTarget = OutputTarget(typeName: string, settings: map<string, string>)

  /** What a validator returns, and the diagnostics it pushes while doing so. */
  datatype Validated = Validated(targets: seq<OutputTarget>, diagnostics: seq<Diagnostic>)

  /** A per-kind validator, applied to the records of its kind. */
  type Validator = seq<OutputTarget> -> Validated

  /**
   * The definitions the step relies on: `VALID_TYPES_NEXT`, the predicates
   * `isOutputTargetDistCollection`, `isOutputTargetDistCustomElement`,
   * `isOutputTargetDistLazy`, `isOutputTargetWww`, and the validators
   * `validateCollection`, `validateCustomElement`, `validateLazy`,
   * `validateWww`.
   */
  datatype Kinds = Kinds(
    validTypes: seq<string>,
    isCollection: OutputTarget -> bool,
    isCustomElement: OutputTarget -> bool,
    isLazy: OutputTarget -> bool,
    isWww: OutputTarget -> bool,
    validateCollection: Validator,
    validateCustomElement: Validator,
    validateLazy: Validator,
    validateWww: Validator)

  /** The part of the compiler configuration this step reads and replaces. */
  class Config {
    var outputTargets: Option<seq<OutputTarget>>

    constructor (outputTargets: Option<seq<OutputTarget>>)
      ensures this.outputTargets == outputTargets
    {
      this.outputTargets := outputTargets;
    }
  }

  /** `(config.outputTargets || []).slice()`: a missing list is an empty one. */
  function UserOutputs(outputTargets: Option<seq<OutputTarget>>): (r: seq<OutputTarget>)
    ensures outputTargets.None? ==> r == []
    ensures outputTargets.Some? ==> r == outputTargets.value
  {
    outputTargets.GetOr([])
  }

  /** `"t"`. */
  function Quote(t: string): string {
    "\"" + t + "\""
  }

  /** Each valid type, quoted. */
  function QuoteAll(types: seq<string>): (r: seq<string>)
    ensures |r| == |types|
    ensures forall k :: 0 <= k < |r| ==> r[k] == Quote(types[k])
  {
    seq(|types|, k requires 0 <= k < |types| => Quote(types[k]))
  }

  const InvalidTypePrefix: string := "invalid outputTarget type "
  const ValidTypesIntro: string := ". Valid outputTarget types include: "

  /** The error for a record of unknown type `t`. */
  function InvalidTypeMessage(t: string, validTypes: seq<string>): string {
    InvalidTypePrefix + Quote(t) + ValidTypesIntro + Join(QuoteAll(validTypes), ", ")
  }

  /** The type of `target` is one of the valid types. */
  predicate HasValidType(target: OutputTarget, validTypes: seq<string>) {
    target.typeName in validTypes
  }

  /** The errors of the type check: one per record of unknown type, in order. */
  function TypeErrors(targets: seq<OutputTarget>, validTypes: seq<string>): seq<Diagnostic>
  {
    if targets == [] then []
    else
      var here := if HasValidType(targets[0], validTypes) then []
        else [Diagnostic(Error, InvalidTypeMessage(targets[0].typeName, validTypes))];
      here + TypeErrors(targets[1..], validTypes)
  }

  /** What the four validators return, and push, for their shares of `targets`. */
  function Dispatch(targets: seq<OutputTarget>, kinds: Kinds): Validated
  {
    var collection := kinds.validateCollection(Filter(targets, kinds.isCollection));
    var customElement := kinds.validateCustomElement(Filter(targets, kinds.isCustomElement));
    var lazy := kinds.validateLazy(Filter(targets, kinds.isLazy));
    var www := kinds.validateWww(Filter(targets, kinds.isWww));
    Validated(
      collection.targets + customElement.targets + lazy.targets + www.targets,
      collection.diagnostics + customElement.diagnostics + lazy.diagnostics + www.diagnostics)
  }

  /**
   * `validateOutputTargets`: the type check over a copy of the user's list,
   * then the four validators on their shares of that list, whose results,
   * concatenated, become the configuration's output targets.
   */
  method ValidateOutputTargets(config: Config, diagnostics: Sink<Diagnostic>, kinds: Kinds)
    modifies config, diagnostics
    ensures var user := UserOutputs(old(config.outputTargets));
      var d := Dispatch(user, kinds);
      config.outputTargets == Some(d.targets)
      && diagnostics.items == old(diagnostics.items) + TypeErrors(user, kinds.validTypes) + d.diagnostics
  {
    var userOutputs := config.outputTargets.GetOr([]);
    CheckTypes(diagnostics, userOutputs, kinds.validTypes);

    var collection := kinds.validateCollection(Filter(userOutputs, kinds.isCollection));
    diagnostics.PushAll(collection.diagnostics);
    var customElement := kinds.validateCustomElement(Filter(userOutputs, kinds.isCustomElement));
    diagnostics.PushAll(customElement.diagnostics);
    var lazy := kinds.validateLazy(Filter(userOutputs, kinds.isLazy));
    diagnostics.PushAll(lazy.diagnostics);
    var www := kinds.validateWww(Filter(userOutputs, kinds.isWww));
    diagnostics.PushAll(www.diagnostics);

    config.outputTargets := Some(collection.targets + customElement.targets + lazy.targets + www.targets);
  }

  // ---------------------------------------------------------------------------
  // The type check
  // ---------------------------------------------------------------------------

  /** The `forEach` over the user's list: one error per record of unknown type. */
  method CheckTypes(diagnostics: Sink<Diagnostic>, userOutputs: seq<OutputTarget>, validTypes: seq<string>)
    modifies diagnostics
    ensures diagnostics.items == old(diagnostics.items) + TypeErrors(userOutputs, validTypes)
  {
    var k := 0;
    while k < |userOutputs|
      invariant 0 <= k <= |userOutputs|
      invariant diagnostics.items == old(diagnostics.items) + TypeErrors(userOutputs[..k], validTypes)
    {
      var target := userOutputs[k];
      if target.typeName !in validTypes {
        diagnostics.Push(Diagnostic(Error, InvalidTypeMessage(target.typeName, validTypes)));
      }
      TypeErrorsAppend(userOutputs[..k], [target], validTypes);
      assert userOutputs[..k + 1] == userOutputs[..k] + [target];
      k := k + 1;
    }
    assert userOutputs[..k] == userOutputs;
  }

  /** The type check of a concatenation reports the first part's errors, then the second's. */
  lemma {:induction false} TypeErrorsAppend(a: seq<OutputTarget>, b: seq<OutputTarget>, validTypes: seq<string>)
    ensures TypeErrors(a + b, validTypes) == TypeErrors(a, validTypes) + TypeErrors(b, validTypes)
  {
    if a != [] {
      assert (a + b)[1..] == a[1..] + b;
      TypeErrorsAppend(a[1..], b, validTypes);
    } else {
      assert a + b == b;
    }
  }

  /** The errors for a list of records, one per record. */
  function ErrorsFor(targets: seq<OutputTarget>, validTypes: seq<string>): (r: seq<Diagnostic>)
    ensures |r| == |targets|
  {
    seq(|targets|, k requires 0 <= k < |targets| => Diagnostic(Error, InvalidTypeMessage(targets[k].typeName, validTypes)))
  }

  /**
   * The type check reports exactly the records of unknown type, one error each,
   * in input order, each an error naming that record's type.
   */
  lemma {:induction false} TypeErrorsAreInvalidRecords(targets: seq<OutputTarget>, validTypes: seq<string>)
    ensures TypeErrors(targets, validTypes) == ErrorsFor(Filter(targets, t => !HasValidType(t, validTypes)), validTypes)
  {
    if targets != [] {
      TypeErrorsAreInvalidRecords(targets[1..], validTypes);
      var rest := Filter(targets[1..], t => !HasValidType(t, validTypes));
      if !HasValidType(targets[0], validTypes) {
        assert ErrorsFor([targets[0]] + rest, validTypes)
          == [Diagnostic(Error, InvalidTypeMessage(targets[0].typeName, validTypes))] + ErrorsFor(rest, validTypes);
      }
    }
  }

  /** A list whose records all have valid types draws no error from the type check. */
  lemma AllValidNoErrors(targets: seq<OutputTarget>, validTypes: seq<string>)
    requires forall k :: 0 <= k < |targets| ==> targets[k].typeName in validTypes
    ensures TypeErrors(targets, validTypes) == []
  {
    TypeErrorsAreInvalidRecords(targets, validTypes);
    FilterNone(targets, t => !HasValidType(t, validTypes));
  }

  /** The number of errors is the number of records of unknown type. */
  lemma TypeErrorsCount(targets: seq<OutputTarget>, validTypes: seq<string>)
    ensures |TypeErrors(targets, validTypes)| == |Filter(targets, t => !HasValidType(t, validTypes))|
  {
    TypeErrorsAreInvalidRecords(targets, validTypes);
  }

  /**
   * The error names the offending type, quoted, right after its opening words,
   * and then every valid type, quoted.
   */
  lemma InvalidTypeMessageNames(t: string, validTypes: seq<string>, k: nat)
    requires k < |validTypes|
    ensures OccursAt(InvalidTypeMessage(t, validTypes), Quote(t), |InvalidTypePrefix|)
    ensures exists j :: |InvalidTypePrefix + Quote(t)| <= j && OccursAt(InvalidTypeMessage(t, validTypes), Quote(validTypes[k]), j)
  {
    var msg := InvalidTypeMessage(t, validTypes);
    var joined := Join(QuoteAll(validTypes), ", ");
    var head := InvalidTypePrefix + Quote(t);
    assert msg == head + ValidTypesIntro + joined;
    assert msg[|InvalidTypePrefix|..|InvalidTypePrefix| + |Quote(t)|] == Quote(t);
    var i := JoinOccurs(QuoteAll(validTypes), ", ", k);
    OccursAtExtend(joined, Quote(validTypes[k]), i, head + ValidTypesIntro, []);
    assert head + ValidTypesIntro + joined + [] == msg;
  }

  // ---------------------------------------------------------------------------
  // The dispatch to the validators
  // ---------------------------------------------------------------------------

  /**
   * A validator's share is the records of its kind, each once per occurrence,
   * in their order in the user's list: the share of a concatenation is the
   * shares of its parts, concatenated.
   */
  lemma ShareIsOrdered(a: seq<OutputTarget>, b: seq<OutputTarget>, isKind: OutputTarget -> bool, x: OutputTarget)
    ensures Filter(a + b, isKind) == Filter(a, isKind) + Filter(b, isKind)
    ensures x in Filter(a + b, isKind) <==> x in a + b && isKind(x)
  {
    FilterAppend(a, b, isKind);
    FilterMembership(a + b, isKind, x);
  }

  /**
   * A record of unknown type is still handed to every validator whose
   * predicate accepts it: the type check does not remove anything.
   */
  lemma UnknownTypeStillDispatched(targets: seq<OutputTarget>, kinds: Kinds, x: OutputTarget)
    requires x in targets && !HasValidType(x, kinds.validTypes)
    ensures kinds.isCollection(x) ==> x in Filter(targets, kinds.isCollection)
    ensures kinds.isCustomElement(x) ==> x in Filter(targets, kinds.isCustomElement)
    ensures kinds.isLazy(x) ==> x in Filter(targets, kinds.isLazy)
    ensures kinds.isWww(x) ==> x in Filter(targets, kinds.isWww)
  {
    FilterMembership(targets, kinds.isCollection, x);
    FilterMembership(targets, kinds.isCustomElement, x);
    FilterMembership(targets, kinds.isLazy, x);
    FilterMembership(targets, kinds.isWww, x);
  }

  /** A record no predicate accepts reaches no validator. */
  lemma UnclaimedRecordDropped(targets: seq<OutputTarget>, kinds: Kinds, x: OutputTarget)
    requires !kinds.isCollection(x) && !kinds.isCustomElement(x) && !kinds.isLazy(x) && !kinds.isWww(x)
    ensures x !in Filter(targets, kinds.isCollection) && x !in Filter(targets, kinds.isCustomElement)
      && x !in Filter(targets, kinds.isLazy) && x !in Filter(targets, kinds.isWww)
  {
    FilterMembership(targets, kinds.isCollection, x);
    FilterMembership(targets, kinds.isCustomElement, x);
    FilterMembership(targets, kinds.isLazy, x);
    FilterMembership(targets, kinds.isWww, x);
  }

  /** No predicate accepts both records. */
  predicate Unrelated(kinds: Kinds, a: OutputTarget, b: OutputTarget) {
    !(kinds.isCollection(a) && kinds.isCollection(b))
    && !(kinds.isCustomElement(a) && kinds.isCustomElement(b))
    && !(kinds.isLazy(a) && kinds.isLazy(b))
    && !(kinds.isWww(a) && kinds.isWww(b))
  }

  /** Swapping two neighbours that no predicate accepts together leaves a share as it is. */
  lemma SwapKeepsShare(xs: seq<OutputTarget>, a: OutputTarget, b: OutputTarget, ys: seq<OutputTarget>, isKind: OutputTarget -> bool)
    requires !(isKind(a) && isKind(b))
    ensures Filter(xs + [a, b] + ys, isKind) == Filter(xs + [b, a] + ys, isKind)
  {
    FilterAppend(xs + [a, b], ys, isKind);
    FilterAppend(xs + [b, a], ys, isKind);
    FilterAppend(xs, [a, b], isKind);
    FilterAppend(xs, [b, a], isKind);
    FilterAppend([a], [b], isKind);
    FilterAppend([b], [a], isKind);
  }

  /**
   * The new output list is in kind order whatever the input order: swapping
   * two neighbouring records of different kinds changes neither the new list
   * nor the validators' diagnostics.
   */
  lemma DispatchIgnoresOrderAcrossKinds(xs: seq<OutputTarget>, a: OutputTarget, b: OutputTarget, ys: seq<OutputTarget>, kinds: Kinds)
    requires Unrelated(kinds, a, b)
    ensures Dispatch(xs + [a, b] + ys, kinds) == Dispatch(xs + [b, a] + ys, kinds)
  {
    SwapKeepsShare(xs, a, b, ys, kinds.isCollection);
    SwapKeepsShare(xs, a, b, ys, kinds.isCustomElement);
    SwapKeepsShare(xs, a, b, ys, kinds.isLazy);
    SwapKeepsShare(xs, a, b, ys, kinds.isWww);
  }

  /**
   * With validators that return their input unchanged and report nothing, a
   * lazy record given before a collection record comes out after it.
   */
  lemma CollectionBeforeLazy(a: OutputTarget, b: OutputTarget, kinds: Kinds)
    requires kinds.isLazy(a) && !kinds.isCollection(a) && !kinds.isCustomElement(a) && !kinds.isWww(a)
    requires kinds.isCollection(b) && !kinds.isCustomElement(b) && !kinds.isLazy(b) && !kinds.isWww(b)
    requires forall ts :: kinds.validateCollection(ts) == Validated(ts, [])
    requires forall ts :: kinds.validateCustomElement(ts) == Validated(ts, [])
    requires forall ts :: kinds.validateLazy(ts) == Validated(ts, [])
    requires forall ts :: kinds.validateWww(ts) == Validated(ts, [])
    ensures Dispatch([a, b], kinds) == Validated([b, a], [])
  {
    assert Filter([a, b], kinds.isCollection) == [b];
    assert Filter([a, b], kinds.isCustomElement) == [];
    assert Filter([a, b], kinds.isLazy) == [a];
    assert Filter([a, b], kinds.isWww) == [];
  }
}
