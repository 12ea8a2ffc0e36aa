/** Error values and the chain they form.

    Go's `error` and `any` are open interfaces; here they are closed
    datatypes holding the values this package meets. The chain library the
    package builds on (simplerr) is not part of this model: what the package
    relies on from it — one unwrap step, the first-match `As`, the nearest
    field payload, and `Is` — is stated below as plain definitions and is the
    model's assumption about that library. This module also holds the two
    chain methods of khanError (errors/khan.go:103-117). */
module Chain {
  import opened Kinds

  datatype Option<+T> = None | Some(value: T)

  /** errors.Fields: string keys to arbitrary values. A nil map reads like
      an empty one, so both are the empty map here. */
  type Fields = map<string, Value>

  /** A Go `any` as it reaches this package. */
  datatype Value =
    | NilValue                     // the untyped nil
    | BoolValue(b: bool)
    | IntValue(i: int)
    | StrValue(s: string)          // string
    | StrsValue(strs: seq<string>) // []string
    | ListValue(items: seq<Value>) // []any
    | FieldsValue(fields: Fields)  // errors.Fields
    | MapValue(entries: Fields)    // map[string]any
    | ErrValue(err: Error)         // any non-nil value whose type implements error
    | OtherValue(goType: string)   // any other value, known only by its type

  /** A non-nil Go error. */
  datatype Error =
      /** an errorKind used as an error (a "bare kind" sentinel) */
    | KindError(kind: ErrorKind)
      /** an error of a type defined elsewhere, e.g. fmt.Errorf, possibly wrapping another */
    | Foreign(text: string, wrapped: Option<Error>)
      /** a *khanError */
    | Node(node: KhanError)
      /** the library's WrapWithFieldsAndDepth(cause, fields, depth) */
    | WithFields(cause: Error, payload: Fields)
      /** the library's With(tagged, mark): tags an error with a kind */
    | Tagged(tagged: Error, mark: ErrorKind)

  /** khanError (errors/khan.go:17-22). */
  datatype KhanError = KhanError(message: string, kind: ErrorKind, wrappedErr: Option<Error>, extra: Fields)

  /** Length of the longest path of causes; the measure every walk decreases. */
  function Depth(e: Error): (d: nat)
    ensures d >= 1
  {
    match e
    case KindError(_) => 1
    case Foreign(_, w) => 1 + OptDepth(w)
    case Node(n) => NodeDepth(n)
    case WithFields(c, _) => 1 + Depth(c)
    case Tagged(c, _) => 1 + Depth(c)
  }

  function NodeDepth(n: KhanError): nat
  {
    1 + OptDepth(n.wrappedErr)
  }

  function OptDepth(o: Option<Error>): nat
  {
    match o
    case None => 0
    case Some(e) => Depth(e)
  }

  /** One step down the chain. For a node this is khanError.Unwrap
      (khan.go:105-107); each wrapper yields what it wraps. */
  function Unwrap(e: Error): (next: Option<Error>)
    ensures OptDepth(next) < Depth(e)
    ensures e.Node? ==> next == e.node.wrappedErr
    ensures e.KindError? ==> next.None?
  {
    match e
    case KindError(_) => None
    case Foreign(_, w) => w
    case Node(n) => n.wrappedErr
    case WithFields(c, _) => Some(c)
    case Tagged(c, _) => Some(c)
  }

  /** The links met by repeated unwrapping, outermost first. */
  function ChainOf(err: Option<Error>): (links: seq<Error>)
    ensures |links| <= OptDepth(err)
    ensures err.Some? ==> |links| > 0 && links[0] == err.value
    decreases OptDepth(err)
  {
    match err
    case None => []
    case Some(e) => [e] + ChainOf(Unwrap(e))
  }

  /** As(err, &node) for a *khanError target: the first node on the chain. */
  function FindNode(err: Option<Error>): (found: Option<KhanError>)
    ensures found.Some? ==> NodeDepth(found.value) <= OptDepth(err)
    decreases OptDepth(err)
  {
    match err
    case None => None
    case Some(e) => if e.Node? then Some(e.node) else FindNode(Unwrap(e))
  }

  /** As(err, &kind) for an errorKind target: the first kind on the chain.
      A tagged error offers its mark before what it tags. */
  function FindKind(err: Option<Error>): Option<ErrorKind>
    decreases OptDepth(err)
  {
    match err
    case None => None
    case Some(e) =>
      match e
      case KindError(k) => Some(k)
      case Tagged(_, k) => Some(k)
      case _ => FindKind(Unwrap(e))
  }

  /** The library's GetFields: the payload of the nearest field wrapper. */
  function FieldsOf(err: Option<Error>): Fields
    decreases OptDepth(err)
  {
    match err
    case None => map[]
    case Some(e) => if e.WithFields? then e.payload else FieldsOf(Unwrap(e))
  }

  /** khanError.Is (khan.go:115-117): a node is "equal" to its own kind. */
  function NodeIs(n: KhanError, target: Option<Error>): bool
  {
    target == Some(KindError(n.kind))
  }

  /** What one link answers to `Is` besides plain equality. */
  predicate LinkMatches(e: Error, reference: Error)
  {
    || e == reference
    || (e.Node? && NodeIs(e.node, Some(reference)))
    || (e.Tagged? && reference == KindError(e.mark))
  }

  /** errors.Is: a nil reference matches only a nil error; otherwise some
      link on the chain must match. */
  function Is(err: Option<Error>, reference: Option<Error>): bool
    decreases OptDepth(err)
  {
    match reference
    case None => err.None?
    case Some(r) =>
      match err
      case None => false
      case Some(e) => LinkMatches(e, r) || Is(Unwrap(e), reference)
  }

  /** A node is equal for Is to itself and to its own kind, and to nothing
      else, a nil target included; through the chain it also matches
      whatever its wrapped error matches. */
  lemma NodeMatches(n: KhanError, target: Error)
    ensures !NodeIs(n, None)
    ensures LinkMatches(Node(n), target) <==> target == Node(n) || target == KindError(n.kind)
    ensures Is(Some(Node(n)), Some(target)) <==>
      target == Node(n) || target == KindError(n.kind) || Is(n.wrappedErr, Some(target))
  {
    assert Unwrap(Node(n)) == n.wrappedErr;
  }

  // ---- The walks are first-match searches along ChainOf ----

  /** FindNode returns the first node on the chain, and nothing when the
      chain holds none. */
  lemma {:induction false} FindNodeIsFirstMatch(err: Option<Error>)
    ensures FindNode(err).None? ==> forall i :: 0 <= i < |ChainOf(err)| ==> !ChainOf(err)[i].Node?
    ensures FindNode(err).Some? ==>
      exists i :: 0 <= i < |ChainOf(err)| && ChainOf(err)[i] == Node(FindNode(err).value) &&
        forall j :: 0 <= j < i ==> !ChainOf(err)[j].Node?
    decreases OptDepth(err)
  {
    match err
    case None =>
    case Some(e) =>
      var rest := Unwrap(e);
      FindNodeIsFirstMatch(rest);
      var links := ChainOf(err);
      assert links == [e] + ChainOf(rest);
      assert forall j :: 0 < j < |links| ==> links[j] == ChainOf(rest)[j - 1];
      if !e.Node? && FindNode(rest).Some? {
        var i :| 0 <= i < |ChainOf(rest)| && ChainOf(rest)[i] == Node(FindNode(rest).value)
          && forall j :: 0 <= j < i ==> !ChainOf(rest)[j].Node?;
        assert links[i + 1] == ChainOf(rest)[i];
        assert links[i + 1].Node?;
      } else if e.Node? {
        assert ChainOf(err)[0] == e;
      } else {
        assert forall j :: 0 <= j < |links| ==> !links[j].Node?;
      }
  }

  /** FindKind returns the first kind or tag mark on the chain. */
  lemma {:induction false} FindKindIsFirstMatch(err: Option<Error>)
    ensures FindKind(err).None? ==>
      forall i :: 0 <= i < |ChainOf(err)| ==> !(ChainOf(err)[i].KindError? || ChainOf(err)[i].Tagged?)
    ensures FindKind(err).Some? ==>
      exists i :: 0 <= i < |ChainOf(err)| && KindAt(ChainOf(err)[i]) == FindKind(err) &&
        forall j :: 0 <= j < i ==> KindAt(ChainOf(err)[j]).None?
    decreases OptDepth(err)
  {
    match err
    case None =>
    case Some(e) =>
      var rest := Unwrap(e);
      FindKindIsFirstMatch(rest);
      var links := ChainOf(err);
      assert links == [e] + ChainOf(rest);
      assert forall j :: 0 < j < |links| ==> links[j] == ChainOf(rest)[j - 1];
      if KindAt(e).None? && FindKind(rest).Some? {
        var i :| 0 <= i < |ChainOf(rest)| && KindAt(ChainOf(rest)[i]) == FindKind(rest)
          && forall j :: 0 <= j < i ==> KindAt(ChainOf(rest)[j]).None?;
        assert links[i + 1] == ChainOf(rest)[i];
      }
  }

  /** The kind a single link offers to As. */
  function KindAt(e: Error): Option<ErrorKind>
  {
    match e
    case KindError(k) => Some(k)
    case Tagged(_, k) => Some(k)
    case _ => None
  }

  /** FieldsOf returns the payload of the first field wrapper on the chain,
      and the empty map when the chain holds none. */
  lemma {:induction false} FieldsOfIsFirstMatch(err: Option<Error>)
    ensures (forall i :: 0 <= i < |ChainOf(err)| ==> !ChainOf(err)[i].WithFields?) ==> FieldsOf(err) == map[]
    ensures forall i :: 0 <= i < |ChainOf(err)| && ChainOf(err)[i].WithFields? ==>
      (forall j :: 0 <= j < i ==> !ChainOf(err)[j].WithFields?) ==> FieldsOf(err) == ChainOf(err)[i].payload
    decreases OptDepth(err)
  {
    match err
    case None =>
    case Some(e) =>
      var rest := Unwrap(e);
      FieldsOfIsFirstMatch(rest);
      var links, tail := ChainOf(err), ChainOf(rest);
      assert links == [e] + tail;
      assert forall i :: 0 <= i < |tail| ==> tail[i] == links[i + 1];
      assert forall j :: 0 < j < |links| ==> links[j] == tail[j - 1];
  }
}
