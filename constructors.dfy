/** The eleven public constructors (errors/kinds.go:23-81). Each is newError
    with its own fixed kind; UnspecifiedKind has none. */
module Constructors {
  import opened Kinds
  import opened Chain
  import opened Resolution
  import opened Display
  import opened Construction

  /** What every constructor promises for its kind: Is holds for the kind,
      the result is a khan error, and unless a cause brings its own node,
      GetKind gives the kind back. */
  lemma ConstructorContract(p: Printer, kind: ErrorKind, args: seq<Value>)
    requires IsValidKind(kind)
    ensures Is(Some(Construct(p, kind, args)), Some(KindError(kind)))
    ensures IsKhanError(Some(Construct(p, kind, args)))
    ensures FindNode(Classify(args).cause).None? ==> GetKind(Some(Construct(p, kind, args))) == kind
  {
    ConstructKind(p, kind, args);
    ConstructIs(p, kind, args, None);
  }

  function NotFound(p: Printer, args: seq<Value>): (r: Error)
    ensures Is(Some(r), Some(KindError(NotFoundKind))) && IsKhanError(Some(r))
    ensures FindNode(Classify(args).cause).None? ==> GetKind(Some(r)) == NotFoundKind
  {
    ConstructorContract(p, NotFoundKind, args);
    Construct(p, NotFoundKind, args)
  }

  function InvalidInput(p: Printer, args: seq<Value>): (r: Error)
    ensures Is(Some(r), Some(KindError(InvalidInputKind))) && IsKhanError(Some(r))
    ensures FindNode(Classify(args).cause).None? ==> GetKind(Some(r)) == InvalidInputKind
  {
    ConstructorContract(p, InvalidInputKind, args);
    Construct(p, InvalidInputKind, args)
  }

  function NotAllowed(p: Printer, args: seq<Value>): (r: Error)
    ensures Is(Some(r), Some(KindError(NotAllowedKind))) && IsKhanError(Some(r))
    ensures FindNode(Classify(args).cause).None? ==> GetKind(Some(r)) == NotAllowedKind
  {
    ConstructorContract(p, NotAllowedKind, args);
    Construct(p, NotAllowedKind, args)
  }

  function Unauthorized(p: Printer, args: seq<Value>): (r: Error)
    ensures Is(Some(r), Some(KindError(UnauthorizedKind))) && IsKhanError(Some(r))
    ensures FindNode(Classify(args).cause).None? ==> GetKind(Some(r)) == UnauthorizedKind
  {
    ConstructorContract(p, UnauthorizedKind, args);
    Construct(p, UnauthorizedKind, args)
  }

  function Internal(p: Printer, args: seq<Value>): (r: Error)
    ensures Is(Some(r), Some(KindError(InternalKind))) && IsKhanError(Some(r))
    ensures FindNode(Classify(args).cause).None? ==> GetKind(Some(r)) == InternalKind
  {
    ConstructorContract(p, InternalKind, args);
    Construct(p, InternalKind, args)
  }

  function GraphqlResponse(p: Printer, args: seq<Value>): (r: Error)
    ensures Is(Some(r), Some(KindError(GraphqlResponseKind))) && IsKhanError(Some(r))
    ensures FindNode(Classify(args).cause).None? ==> GetKind(Some(r)) == GraphqlResponseKind
  {
    ConstructorContract(p, GraphqlResponseKind, args);
    Construct(p, GraphqlResponseKind, args)
  }

  function NotImplemented(p: Printer, args: seq<Value>): (r: Error)
    ensures Is(Some(r), Some(KindError(NotImplementedKind))) && IsKhanError(Some(r))
    ensures FindNode(Classify(args).cause).None? ==> GetKind(Some(r)) == NotImplementedKind
  {
    ConstructorContract(p, NotImplementedKind, args);
    Construct(p, NotImplementedKind, args)
  }

  function TransientKhanService(p: Printer, args: seq<Value>): (r: Error)
    ensures Is(Some(r), Some(KindError(TransientKhanServiceKind))) && IsKhanError(Some(r))
    ensures FindNode(Classify(args).cause).None? ==> GetKind(Some(r)) == TransientKhanServiceKind
  {
    ConstructorContract(p, TransientKhanServiceKind, args);
    Construct(p, TransientKhanServiceKind, args)
  }

  function KhanService(p: Printer, args: seq<Value>): (r: Error)
    ensures Is(Some(r), Some(KindError(KhanServiceKind))) && IsKhanError(Some(r))
    ensures FindNode(Classify(args).cause).None? ==> GetKind(Some(r)) == KhanServiceKind
  {
    ConstructorContract(p, KhanServiceKind, args);
    Construct(p, KhanServiceKind, args)
  }

  function Service(p: Printer, args: seq<Value>): (r: Error)
    ensures Is(Some(r), Some(KindError(ServiceKind))) && IsKhanError(Some(r))
    ensures FindNode(Classify(args).cause).None? ==> GetKind(Some(r)) == ServiceKind
  {
    ConstructorContract(p, ServiceKind, args);
    Construct(p, ServiceKind, args)
  }

  function TransientService(p: Printer, args: seq<Value>): (r: Error)
    ensures Is(Some(r), Some(KindError(TransientServiceKind))) && IsKhanError(Some(r))
    ensures FindNode(Classify(args).cause).None? ==> GetKind(Some(r)) == TransientServiceKind
  {
    ConstructorContract(p, TransientServiceKind, args);
    Construct(p, TransientServiceKind, args)
  }

  // ---- Scenarios ----

  /** The arguments ("Message", 42): one message, one rejected argument. */
  lemma MessageAndNumber()
    ensures Classify([StrValue("Message"), IntValue(42)]).message == "Message"
    ensures Rejected([StrValue("Message"), IntValue(42)]) == [IntValue(42)]
  {
    var args := [StrValue("Message"), IntValue(42)];
    assert args[..1] == [StrValue("Message")] && args[..1][..0] == [];
    assert args[1..] == [IntValue(42)] && args[1..][1..] == [];
  }

  /** Internal("Message", 42): the message gets the prefix and the bad
      argument is reported as its %#v rendering. */
  lemma InvalidParameterScenario(p: Printer)
    requires p.verbSharpV(IntValue(42)) == "42"
    ensures var fields := GetFields(Some(Internal(p, [StrValue("Message"), IntValue(42)])));
      && InvalidErrArgsKey in fields && fields[InvalidErrArgsKey] == StrsValue(["42"])
      && MessageKey in fields && fields[MessageKey] == StrValue(BadArgsPrefix + "Message")
  {
    var args := [StrValue("Message"), IntValue(42)];
    MessageAndNumber();
    assert Internal(p, args) == Construct(p, InternalKind, args);
    BadArgsReported(p, InternalKind, args);
    DetailsOfOne(p, IntValue(42));
  }

  lemma DetailsOfOne(p: Printer, v: Value)
    ensures Details(p, [v]) == [p.verbSharpV(v)]
  {
  }

  /** Classifying a single error argument makes it the cause. */
  lemma SingleCause(err: Error)
    ensures Classify([ErrValue(err)]).cause == Some(err)
  {
    assert [ErrValue(err)][..0] == [];
  }

  /** Internal(e) where e = Unauthorized(): Is holds for both kinds and for e
      itself; e alone does not match Internal. */
  lemma WrappedKhanErrorScenario(p: Printer)
    ensures var e := Unauthorized(p, []);
      var e2 := Internal(p, [ErrValue(e)]);
      && Is(Some(e2), Some(KindError(InternalKind)))
      && Is(Some(e2), Some(KindError(UnauthorizedKind)))
      && Is(Some(e2), Some(e))
      && !Is(Some(e), Some(KindError(InternalKind)))
  {
    var e := Unauthorized(p, []);
    SingleCause(e);
    ConstructIs(p, InternalKind, [ErrValue(e)], Some(KindError(UnauthorizedKind)));
    assert Is(Some(e), Some(e));
    ConstructIs(p, InternalKind, [ErrValue(e)], Some(e));
    var n := BuildNode(p, UnauthorizedKind, []);
    EmitMatchesOnlyItsKind(UnauthorizedKind, MergedFields(p, n), InternalKind);
  }

  /** NotFound(e3) where e3 is a foreign sentinel: Is holds for the kind and
      for the sentinel. */
  lemma WrappedSentinelScenario(p: Printer, text: string)
    ensures var e3 := Foreign(text, None);
      var e4 := NotFound(p, [ErrValue(e3)]);
      Is(Some(e4), Some(KindError(NotFoundKind))) && Is(Some(e4), Some(e3))
  {
    var e3 := Foreign(text, None);
    SingleCause(e3);
    assert Is(Some(e3), Some(e3));
    ConstructIs(p, NotFoundKind, [ErrValue(e3)], Some(e3));
  }
}
