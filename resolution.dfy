/** Kind resolution and the top-level queries: getKind and GetKind
    (errors/kinds.go:172-203), GetFields and IsKhanError (errors/khan.go:267-283). */
module Resolution {
  import opened Kinds
  import opened Chain

  /** Measure for a possibly nil *khanError. */
  function RefDepth(e: Option<KhanError>): nat
  {
    match e
    case None => 0
    case Some(n) => NodeDepth(n)
  }

  /** getKind: the node's own kind when valid, otherwise the kind of the
      first node wrapped inside it, otherwise UnspecifiedKind. */
  function NodeKind(e: Option<KhanError>): (k: ErrorKind)
    ensures IsValidKind(k)
    decreases RefDepth(e)
  {
    match e
    case None => UnspecifiedKind
    case Some(n) =>
      if IsValidKind(n.kind) then n.kind
      else
        match FindNode(n.wrappedErr)
        case Some(inner) => NodeKind(Some(inner))
        case None => UnspecifiedKind
  }

  /** The nodes getKind may visit: a node, then the first node inside it, and so on. */
  function NodeChain(e: Option<KhanError>): (nodes: seq<KhanError>)
    ensures e.Some? ==> |nodes| > 0 && nodes[0] == e.value
    decreases RefDepth(e)
  {
    match e
    case None => []
    case Some(n) => [n] + NodeChain(FindNode(n.wrappedErr))
  }

  /** Linear search along a list of nodes for the first valid kind. */
  function FirstValidKind(nodes: seq<KhanError>): ErrorKind
  {
    if nodes == [] then UnspecifiedKind
    else if IsValidKind(nodes[0].kind) then nodes[0].kind
    else FirstValidKind(nodes[1..])
  }

  /** getKind returns the kind of the first node along NodeChain whose kind
      is valid, and UnspecifiedKind when none is. */
  lemma {:induction false} NodeKindIsFirstValid(e: Option<KhanError>)
    ensures NodeKind(e) == FirstValidKind(NodeChain(e))
    decreases RefDepth(e)
  {
    match e
    case None =>
    case Some(n) =>
      var rest := FindNode(n.wrappedErr);
      NodeKindIsFirstValid(rest);
      assert NodeChain(e)[1..] == NodeChain(rest);
  }

  /** GetKind: total over every error, nil included. A node found on the
      chain decides first; then a valid bare kind; otherwise UnspecifiedKind. */
  function GetKind(err: Option<Error>): (k: ErrorKind)
    ensures IsValidKind(k)
    ensures FindNode(err).None? && FindKind(err).None? ==> k == UnspecifiedKind
    ensures FindNode(err).None? && FindKind(err).Some? ==>
      k == if IsValidKind(FindKind(err).value) then FindKind(err).value else UnspecifiedKind
  {
    match FindNode(err)
    case Some(n) => NodeKind(Some(n))
    case None =>
      match FindKind(err)
      case Some(kind) => if IsValidKind(kind) then kind else UnspecifiedKind
      case None => UnspecifiedKind
  }

  /** GetFields: the payload of the nearest field wrapper on the chain,
      empty when there is none. */
  function GetFields(err: Option<Error>): (f: Fields)
    ensures (forall i :: 0 <= i < |ChainOf(err)| ==> !ChainOf(err)[i].WithFields?) ==> f == map[]
    ensures forall i :: 0 <= i < |ChainOf(err)| && ChainOf(err)[i].WithFields? ==>
      (forall j :: 0 <= j < i ==> !ChainOf(err)[j].WithFields?) ==> f == ChainOf(err)[i].payload
  {
    FieldsOfIsFirstMatch(err);
    FieldsOf(err)
  }

  /** IsKhanError: As looks for an errorKind along the whole chain and the
      answer is whether the one it finds is valid. */
  function IsKhanError(err: Option<Error>): (b: bool)
    ensures b ==> exists i :: 0 <= i < |ChainOf(err)| && KindAt(ChainOf(err)[i]).Some?
  {
    FindKindIsFirstMatch(err);
    match FindKind(err)
    case Some(kind) => IsValidKind(kind)
    case None => false
  }

  /** A foreign error and a nil error carry no kind. */
  lemma ForeignErrorIsUnspecified(text: string)
    ensures GetKind(Some(Foreign(text, None))) == UnspecifiedKind
    ensures GetKind(None) == UnspecifiedKind
    ensures !IsKhanError(Some(Foreign(text, None)))
  {
    assert FindNode(Some(Foreign(text, None))) == FindNode(None);
    assert FindKind(Some(Foreign(text, None))) == FindKind(None);
  }

  /** Unlike what the comment at khan.go:271-276 says, IsKhanError is not
      limited to the outer error: wrapping any error in a foreign wrapper
      (fmt.Errorf with %w) leaves the answer unchanged. */
  lemma IsKhanErrorLooksThroughForeignWrappers(text: string, inner: Error)
    ensures IsKhanError(Some(Foreign(text, Some(inner)))) == IsKhanError(Some(inner))
    ensures IsKhanError(Some(Foreign(text, Some(KindError(NotFoundKind)))))
  {
    assert FindKind(Some(Foreign(text, Some(inner)))) == FindKind(Some(inner));
    assert FindKind(Some(KindError(NotFoundKind))) == Some(NotFoundKind);
  }

  /** Wherever a node sits on the chain, it decides GetKind: the result is
      the first valid kind along that node and the nodes inside it, even
      when As would find a valid bare kind or tag nearer the top (as it
      does on a node tagged with another kind). A node with an invalid
      kind and no node inside gives UnspecifiedKind. */
  lemma GetKindPrefersNodes(err: Option<Error>, n: KhanError, mark: ErrorKind)
    requires FindNode(err) == Some(n)
    ensures GetKind(err) == FirstValidKind(NodeChain(Some(n)))
    ensures !IsValidKind(n.kind) && FindNode(n.wrappedErr).None? ==> GetKind(err) == UnspecifiedKind
    ensures FindKind(Some(Tagged(Node(n), mark))) == Some(mark)
      && GetKind(Some(Tagged(Node(n), mark))) == FirstValidKind(NodeChain(Some(n)))
  {
    NodeKindIsFirstValid(Some(n));
    assert FindNode(Some(Tagged(Node(n), mark))) == FindNode(Some(Node(n))) == Some(n);
  }
}
