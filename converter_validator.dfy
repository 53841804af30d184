/** AbstractConverterValidator: the base of the SAFE and FULL converter
  * validators. It prepares its converter once, at construction, and turns
  * a failed conversion into at most one diagnostic. */
module ConverterValidators {
  import opened Wrappers

  /** One call of DiagnosticsCollector.collect(message, source, code, start,
    * end). The validators pass the value's length as `end`. */
  datatype Diagnostic = Diagnostic(message: string, source: string, code: string, start: int, end: int)

  /** A thrown Throwable: whether it is an InvocationTargetException, its
    * message (null when absent) and its cause. */
  datatype Throwable = Throwable(invocationTarget: bool, message: Option<string>, cause: Option<Throwable>)

  /** The unwrapping loop keeps going past t: t is an
    * InvocationTargetException, or its cause is one. */
  predicate Unsettled(t: Throwable) {
    t.invocationTarget || (t.cause.Some? && t.cause.value.invocationTarget)
  }

  /** Where the unwrapping loop stops when it starts at t. */
  function Unwrap(t: Option<Throwable>): Option<Throwable> {
    if t.Some? && Unsettled(t.value) then Unwrap(t.value.cause) else t
  }

  /** getErrorMessage: the message of the throwable the unwrapping reaches,
    * or the original one's when the unwrapping runs off the chain. */
  function ErrorMessage(e: Throwable): Option<string> {
    var t := Unwrap(Some(e));
    if t.Some? then t.value.message else e.message
  }

  /** The cause chain e, e.getCause(), ... as a sequence. */
  function Chain(e: Throwable): (c: seq<Throwable>)
    ensures |c| >= 1 && c[0] == e
  {
    [e] + match e.cause { case None => [] case Some(x) => Chain(x) }
  }

  /** The first position of a settled throwable in c, if any. */
  function FirstSettled(c: seq<Throwable>): (r: Option<nat>)
    ensures r.Some? ==> r.value < |c| && !Unsettled(c[r.value])
    ensures r.Some? ==> forall j :: 0 <= j < r.value ==> Unsettled(c[j])
    ensures r.None? ==> forall j :: 0 <= j < |c| ==> Unsettled(c[j])
  {
    if c == [] then None
    else if !Unsettled(c[0]) then Some(0)
    else match FirstSettled(c[1..]) {
      case None => None
      case Some(k) => Some(k + 1)
    }
  }

  /** The unwrapping stops at the first throwable of the cause chain that is
    * neither an InvocationTargetException nor caused by one, and runs off the
    * chain when there is none. */
  lemma {:induction false} UnwrapIsFirstSettled(e: Throwable)
    ensures Unwrap(Some(e)) == match FirstSettled(Chain(e)) {
      case None => None
      case Some(k) => Some(Chain(e)[k])
    }
  {
    var c := Chain(e);
    if Unsettled(e) {
      match e.cause {
        case None =>
          assert c == [e];
          assert c[1..] == [];
        case Some(x) =>
          UnwrapIsFirstSettled(x);
          assert c[1..] == Chain(x);
      }
    }
  }

  /** getErrorMessage returns the message of the first settled throwable of
    * the chain, falling back to the original message when every throwable of
    * the chain is unsettled. */
  lemma ErrorMessageIsFirstSettled(e: Throwable)
    ensures ErrorMessage(e) == match FirstSettled(Chain(e)) {
      case None => e.message
      case Some(k) => Chain(e)[k].message
    }
  {
    UnwrapIsFirstSettled(e);
  }

  /** An InvocationTargetException around a plain exception reports the
    * wrapped exception's message. */
  lemma WrappedMessage(outer: Option<string>, inner: Throwable)
    requires !inner.invocationTarget
    requires inner.cause.None? || !inner.cause.value.invocationTarget
    ensures ErrorMessage(Throwable(true, outer, Some(inner))) == inner.message
  {
    assert Unwrap(Some(inner)) == Some(inner);
  }

  /** getErrorMessage as written: a loop walking the cause chain. */
  method GetErrorMessage(e: Throwable) returns (msg: Option<string>)
    ensures msg == ErrorMessage(e)
  {
    var t := Some(e);
    while t.Some? && (t.value.invocationTarget || (t.value.cause.Some? && t.value.cause.value.invocationTarget))
      invariant Unwrap(t) == Unwrap(Some(e))
      decreases t
    {
      t := t.value.cause;
    }
    msg := if t.Some? then t.value.message else e.message;
  }

  /** prepare(): initialize()'s answer, or false when it throws. */
  function Prepare(initialize: Result<bool, Throwable>): (ready: bool)
    ensures ready <==> initialize == Success(true)
  {
    match initialize
    case Success(b) => b
    case Failure(_) => false
  }

  class AbstractConverterValidator {
    /** The name of the target type (forType). */
    const forType: string
    /** Whether initialize() succeeded; fixed at construction. */
    const prepared: bool
    /** The subclass's convert(value): None when it returns normally, the
      * thrown Throwable otherwise. */
    const convert: string -> Option<Throwable>

    /** The constructor runs prepare() once; `initialize` is what the
      * subclass's initialize() returns or throws. */
    constructor (forType: string, initialize: Result<bool, Throwable>, convert: string -> Option<Throwable>)
      ensures this.forType == forType && this.convert == convert
      ensures CanValidate() <==> initialize == Success(true)
    {
      this.forType := forType;
      this.prepared := Prepare(initialize);
      this.convert := convert;
    }

    function CanValidate(): bool {
      prepared
    }

    /** The collector calls validate(value, start, collector) makes. */
    function Outcome(value: string, start: int): (ds: seq<Diagnostic>)
      ensures |ds| <= 1
      ensures ds != [] <==> prepared && convert(value).Some? && ErrorMessage(convert(value).value).Some?
      ensures forall d :: d in ds ==> d.source == "microprofile-config" && d.code == "value"
      ensures forall d :: d in ds ==> d.start == start && d.end == |value|
      ensures ds != [] ==> Some(ds[0].message) == ErrorMessage(convert(value).value)
    {
      if !prepared then []
      else match convert(value) {
        case None => []
        case Some(e) =>
          match ErrorMessage(e) {
            case None => []
            case Some(m) => [Diagnostic(m, "microprofile-config", "value", start, |value|)]
          }
      }
    }

    /** validate: reports the unwrapped error message of a failed conversion. */
    method Validate(value: string, start: int) returns (ds: seq<Diagnostic>)
      ensures ds == Outcome(value, start)
    {
      if !prepared {
        return [];
      }
      var thrown := convert(value);
      if thrown.None? {
        return [];
      }
      var errorMessage := GetErrorMessage(thrown.value);
      ds := if errorMessage.Some? then [Diagnostic(errorMessage.value, "microprofile-config", "value", start, |value|)] else [];
    }
  }
}
