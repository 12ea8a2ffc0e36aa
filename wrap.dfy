/** Wrap (errors/khan.go:187-248): re-raise an error under the kind it
    already has, with extra fields given as alternating key/value arguments. */
module Wrapping {
  import opened Kinds
  import opened Chain
  import opened Resolution
  import opened Display
  import opened Construction
  import opened Constructors

  const OddArgsMessage := "Passed an odd number of field-args to errors.Wrap()"
  const NonStringKeyMessage := "Passed a non-string key-field to errors.Wrap()"
  const UnknownKindMessage := "Cannot determine kind of error-to-wrap"
  /** The key under which a rejected key argument is reported. */
  const KeyKey := "key"

  // ---- The key/value arguments ----

  /** The first position from `from` on, stepping by two, that holds a key
      which is not a string. */
  function FirstBadKey(args: seq<Value>, from: nat): (i: Option<nat>)
    ensures i.Some? ==> from <= i.value < |args| && (i.value - from) % 2 == 0 && !args[i.value].StrValue?
    ensures i.Some? ==> forall j :: from <= j < i.value && (j - from) % 2 == 0 ==> args[j].StrValue?
    ensures i.None? ==> forall j :: from <= j < |args| && (j - from) % 2 == 0 ==> args[j].StrValue?
    decreases |args| - from
  {
    if from >= |args| then None
    else if !args[from].StrValue? then Some(from)
    else FirstBadKey(args, from + 2)
  }

  /** The field map the pairs build, each pair setting its key in turn. */
  function Pairs(args: seq<Value>): Fields
    requires |args| % 2 == 0
  {
    if args == [] then map[]
    else
      var key := args[|args| - 2];
      if key.StrValue? then Pairs(args[..|args| - 2])[key.s := args[|args| - 1]]
      else Pairs(args[..|args| - 2])
  }

  /** Every key of the pairs comes from a string at an even position. */
  lemma {:induction false} PairsKeysAreGiven(args: seq<Value>, k: string)
    requires |args| % 2 == 0
    ensures k in Pairs(args) ==> exists i :: 0 <= i < |args| && i % 2 == 0 && args[i] == StrValue(k)
    decreases |args|
  {
    if args != [] && k in Pairs(args) && args[|args| - 2] != StrValue(k) {
      var front := args[..|args| - 2];
      PairsKeysAreGiven(front, k);
      var w :| 0 <= w < |front| && w % 2 == 0 && front[w] == StrValue(k);
      assert args[w] == StrValue(k);
    }
  }

  /** A key given more than once keeps the value of its last pair. */
  lemma {:induction false} PairsLastWins(args: seq<Value>, k: string, i: nat)
    requires |args| % 2 == 0
    requires i < |args| && i % 2 == 0 && args[i] == StrValue(k)
    requires forall j :: i < j < |args| && j % 2 == 0 ==> args[j] != StrValue(k)
    ensures k in Pairs(args) && Pairs(args)[k] == args[i + 1]
    decreases |args|
  {
    var front := args[..|args| - 2];
    if i < |args| - 2 {
      assert args[|args| - 2] != StrValue(k);
      assert forall j :: i < j < |front| && j % 2 == 0 ==> front[j] == args[j];
      PairsLastWins(front, k, i);
    }
  }

  // ---- Choosing the new error ----

  /** Lines 225-247 as written: a valid kind found on the chain gives a new
      error of that kind carrying only the new fields; otherwise a node on
      the chain decides the kind and becomes the cause; an error with
      neither becomes the cause of an Internal error. */
  function RekindAsWritten(p: Printer, err: Error, fields: Fields): (r: Error)
    ensures IsKhanError(Some(r))
  {
    var found := FindKind(Some(err));
    if found.Some? && IsValidKind(found.value) then
      ConstructorContract(p, found.value, [FieldsValue(fields)]);
      Construct(p, found.value, [FieldsValue(fields)])
    else
      match FindNode(Some(err))
      case None => Internal(p, [ErrValue(err), FieldsValue(fields)])
      case Some(node) =>
        var errKind := NodeKind(Some(node));
        if errKind == UnspecifiedKind then Internal(p, [StrValue(UnknownKindMessage), ErrValue(err)])
        else
          ConstructorContract(p, errKind, [ErrValue(Node(node)), FieldsValue(fields)]);
          Construct(p, errKind, [ErrValue(Node(node)), FieldsValue(fields)])
  }

  /** The chain carries a valid kind below its top: the one case where the
      choice of lines 226-228 drops something. */
  predicate KindFoundInside(err: Error)
  {
    var found := FindKind(Some(err));
    found.Some? && IsValidKind(found.value) && err != KindError(found.value)
  }

  /** A node decides the kind and its kind is UnspecifiedKind: the case
      Wrap reports as a failure. */
  predicate UnknownNodeKind(err: Error)
  {
    var found := FindKind(Some(err));
    && (found.None? || !IsValidKind(found.value))
    && FindNode(Some(err)).Some? && NodeKind(FindNode(Some(err))) == UnspecifiedKind
  }

  /** The corrected choice: when the kind was found inside a larger error,
      the valid-kind branch also passes that error on as the cause, so its
      message, fields and identity survive. A bare kind is still dropped, as
      it carries nothing else; the other branches are as written. */
  function Rekind(p: Printer, err: Error, fields: Fields): (r: Error)
    ensures IsKhanError(Some(r))
    ensures !KindFoundInside(err) ==> r == RekindAsWritten(p, err, fields)
  {
    if KindFoundInside(err) then
      var kind := FindKind(Some(err)).value;
      ConstructorContract(p, kind, [ErrValue(err), FieldsValue(fields)]);
      Construct(p, kind, [ErrValue(err), FieldsValue(fields)])
    else RekindAsWritten(p, err, fields)
  }

  /** The report for a malformed argument list, raised before any kind is
      looked at: an Internal error wrapping the original, for an odd count
      or for the first key that is not a string; nothing when the pairs are
      well formed. */
  function ArgsReport(p: Printer, err: Error, args: seq<Value>): (r: Option<Error>)
    ensures r.None? <==> |args| % 2 == 0 && FirstBadKey(args, 0).None?
    ensures r.Some? ==> IsKhanError(r)
  {
    if |args| % 2 != 0 then
      Some(Internal(p, [StrValue(OddArgsMessage), ErrValue(err), FieldsValue(map[BadArgsKey := ListValue(args)])]))
    else
      match FirstBadKey(args, 0)
      case Some(i) => Some(Internal(p, [StrValue(NonStringKeyMessage), ErrValue(err), FieldsValue(map[KeyKey := args[i]])]))
      case None => None
  }

  /** Wrap as a value, with the corrected choice: nil stays nil; a malformed
      argument list is reported; otherwise Rekind. */
  function WrapSpec(p: Printer, err: Option<Error>, args: seq<Value>): (r: Option<Error>)
    ensures r.None? <==> err.None?
    ensures r.Some? ==> IsKhanError(r)
  {
    if err.None? then None
    else if ArgsReport(p, err.value, args).Some? then ArgsReport(p, err.value, args)
    else Some(Rekind(p, err.value, Pairs(args)))
  }

  /** Wrap as a value, exactly as written: the same, with RekindAsWritten. */
  function WrapAsWrittenSpec(p: Printer, err: Option<Error>, args: seq<Value>): (r: Option<Error>)
    ensures r.None? <==> err.None?
    ensures r.Some? ==> IsKhanError(r)
  {
    if err.None? then None
    else if ArgsReport(p, err.value, args).Some? then ArgsReport(p, err.value, args)
    else Some(RekindAsWritten(p, err.value, Pairs(args)))
  }

  /** Wrap, step by step: the parity check, then the loop over the pairs
      that stops at the first key that is not a string. */
  method Wrap(p: Printer, err: Option<Error>, args: seq<Value>) returns (r: Option<Error>)
    ensures r == WrapSpec(p, err, args)
  {
    if err.None? {
      return None;
    }
    if |args| % 2 != 0 {
      return Some(Internal(p, [StrValue(OddArgsMessage), ErrValue(err.value), FieldsValue(map[BadArgsKey := ListValue(args)])]));
    }
    var fields: Fields := map[];
    var i := 0;
    while i < |args|
      invariant 0 <= i <= |args| && i % 2 == 0
      invariant FirstBadKey(args, i) == FirstBadKey(args, 0)
      invariant fields == Pairs(args[..i])
      decreases |args| - i
    {
      if !args[i].StrValue? {
        return Some(Internal(p, [StrValue(NonStringKeyMessage), ErrValue(err.value), FieldsValue(map[KeyKey := args[i]])]));
      }
      assert args[..i + 2][..i] == args[..i];
      fields := fields[args[i].s := args[i + 1]];
      i := i + 2;
    }
    assert args[..i] == args;
    r := Some(Rekind(p, err.value, fields));
  }

  // ---- What Wrap promises ----

  /** The slots of the argument lists Wrap passes on. */
  lemma ErrAndFields(err: Error, fields: Fields)
    ensures Classify([ErrValue(err), FieldsValue(fields)]) == Classified(Some(err), "", fields, [])
    ensures Rejected([ErrValue(err), FieldsValue(fields)]) == []
  {
    var args := [ErrValue(err), FieldsValue(fields)];
    assert args[..1] == [ErrValue(err)] && args[..1][..0] == [];
    assert Classify(args[..1]) == Classified(Some(err), "", map[], []);
    BadArgsInOrder(args);
  }

  lemma MessageErrAndFields(message: string, err: Error, fields: Fields)
    ensures Classify([StrValue(message), ErrValue(err), FieldsValue(fields)]) == Classified(Some(err), message, fields, [])
    ensures Rejected([StrValue(message), ErrValue(err), FieldsValue(fields)]) == []
  {
    var args := [StrValue(message), ErrValue(err), FieldsValue(fields)];
    assert args[..2] == [StrValue(message), ErrValue(err)];
    assert args[..2][..1] == [StrValue(message)] && args[..2][..1][..0] == [];
    assert Classify(args[..2][..1]) == Classified(None, message, map[], []);
    assert Classify(args[..2]) == Classified(Some(err), message, map[], []);
    BadArgsInOrder(args);
  }

  /** The report Wrap raises for a malformed argument list: an Internal
      error with the diagnostic message and the one diagnostic field, which
      still wraps the original error. */
  lemma FailureReport(p: Printer, message: string, err: Error, key: string, v: Value)
    requires message != "" && key != MessageKey
    ensures var r := Internal(p, [StrValue(message), ErrValue(err), FieldsValue(map[key := v])]);
      var fields := GetFields(Some(r));
      && MessageKey in fields && fields[MessageKey] == StrValue(message)
      && key in fields && fields[key] == v
      && Is(Some(r), Some(KindError(InternalKind))) && Is(Some(r), Some(err))
  {
    var args := [StrValue(message), ErrValue(err), FieldsValue(map[key := v])];
    MessageErrAndFields(message, err, map[key := v]);
    OwnFieldsWin(p, InternalKind, args, key);
    assert Is(Some(err), Some(err));
    ConstructIs(p, InternalKind, args, Some(err));
  }

  /** An odd number of arguments is reported with all of them, before any
      key is looked at. */
  lemma WrapOddArgs(p: Printer, err: Error, args: seq<Value>)
    requires |args| % 2 != 0
    ensures var r := WrapSpec(p, Some(err), args);
      var fields := GetFields(r);
      && r.Some? && Is(r, Some(KindError(InternalKind))) && Is(r, Some(err))
      && MessageKey in fields && fields[MessageKey] == StrValue(OddArgsMessage)
      && BadArgsKey in fields && fields[BadArgsKey] == ListValue(args)
  {
    FailureReport(p, OddArgsMessage, err, BadArgsKey, ListValue(args));
  }

  /** The first key that is not a string is reported, and nothing else of
      the pairs reaches the result. */
  lemma WrapNonStringKey(p: Printer, err: Error, args: seq<Value>, i: nat)
    requires |args| % 2 == 0
    requires i < |args| && i % 2 == 0 && !args[i].StrValue?
    requires forall j :: 0 <= j < i && j % 2 == 0 ==> args[j].StrValue?
    ensures var r := WrapSpec(p, Some(err), args);
      var fields := GetFields(r);
      && r.Some? && Is(r, Some(KindError(InternalKind))) && Is(r, Some(err))
      && MessageKey in fields && fields[MessageKey] == StrValue(NonStringKeyMessage)
      && KeyKey in fields && fields[KeyKey] == args[i]
  {
    assert FirstBadKey(args, 0) == Some(i);
    FailureReport(p, NonStringKeyMessage, err, KeyKey, args[i]);
  }

  /** Rewrapping an error, not itself a bare kind, whose chain carries a
      valid kind and no node: the result has that kind, is still the
      original error to Is, shows every new pair, and keeps every other
      non-positional field of the original. */
  lemma RekindKeepsKindAndFields(p: Printer, err: Error, fields: Fields, k: string)
    requires FindKind(Some(err)).Some? && IsValidKind(FindKind(Some(err)).value)
    requires !err.KindError? && FindNode(Some(err)).None?
    ensures var kind, r := FindKind(Some(err)).value, Rekind(p, err, fields);
      && GetKind(Some(r)) == kind
      && Is(Some(r), Some(KindError(kind))) && Is(Some(r), Some(err))
      && (k in fields ==> k in GetFields(Some(r)) && GetFields(Some(r))[k] == fields[k])
      && (k in GetFields(Some(err)) && k !in fields && k != KindKey && k !in PositionalKeys ==>
          k in GetFields(Some(r)) && GetFields(Some(r))[k] == GetFields(Some(err))[k])
  {
    var kind := FindKind(Some(err)).value;
    assert Rekind(p, err, fields) == Construct(p, kind, [ErrValue(err), FieldsValue(fields)]);
    CauseAndFieldsQueries(p, kind, err, fields);
    CauseAndFieldsLookup(p, kind, err, fields, k);
  }

  /** newError(kind, err, fields) for an err without a node: the kind is
      reported and both the kind and err are matched by Is. */
  lemma CauseAndFieldsQueries(p: Printer, kind: ErrorKind, err: Error, fields: Fields)
    requires IsValidKind(kind) && FindNode(Some(err)).None?
    ensures var r := Construct(p, kind, [ErrValue(err), FieldsValue(fields)]);
      GetKind(Some(r)) == kind && Is(Some(r), Some(KindError(kind))) && Is(Some(r), Some(err))
  {
    var args := [ErrValue(err), FieldsValue(fields)];
    ErrAndFields(err, fields);
    ConstructorContract(p, kind, args);
    assert Is(Some(err), Some(err));
    ConstructIs(p, kind, args, Some(err));
  }

  /** newError(kind, err, fields): the new pairs win; the other fields of
      err are inherited. */
  lemma CauseAndFieldsLookup(p: Printer, kind: ErrorKind, err: Error, fields: Fields, k: string)
    ensures var r := Construct(p, kind, [ErrValue(err), FieldsValue(fields)]);
      && (k in fields ==> k in GetFields(Some(r)) && GetFields(Some(r))[k] == fields[k])
      && (k in GetFields(Some(err)) && k !in fields && k != KindKey && k !in PositionalKeys ==>
          k in GetFields(Some(r)) && GetFields(Some(r))[k] == GetFields(Some(err))[k])
  {
    var args := [ErrValue(err), FieldsValue(fields)];
    ErrAndFields(err, fields);
    OwnFieldsWin(p, kind, args, k);
    if k in GetFields(Some(err)) && k !in fields && k != KindKey && k !in PositionalKeys {
      InheritedFieldKept(p, kind, args, k);
    }
  }

  /** An error with neither a valid kind nor a node on its chain becomes the
      cause of an Internal error that shows every new pair. */
  lemma RekindForeign(p: Printer, err: Error, fields: Fields, k: string)
    requires FindKind(Some(err)).None? || !IsValidKind(FindKind(Some(err)).value)
    requires FindNode(Some(err)).None?
    ensures var r := Rekind(p, err, fields);
      && GetKind(Some(r)) == InternalKind
      && Is(Some(r), Some(KindError(InternalKind))) && Is(Some(r), Some(err))
      && (k in fields ==> k in GetFields(Some(r)) && GetFields(Some(r))[k] == fields[k])
  {
    var args := [ErrValue(err), FieldsValue(fields)];
    ErrAndFields(err, fields);
    assert Is(Some(err), Some(err));
    ConstructIs(p, InternalKind, args, Some(err));
    OwnFieldsWin(p, InternalKind, args, k);
  }

  /** Rewrapping a bare valid kind gives a new error of that kind, matched
      by Is against the kind, carrying the Kind field and the new pairs. */
  lemma RekindBareKind(p: Printer, kind: ErrorKind, fields: Fields)
    requires IsValidKind(kind)
    ensures var r := Rekind(p, KindError(kind), fields);
      GetKind(Some(r)) == kind && Is(Some(r), Some(KindError(kind))) && GetFields(Some(r)) == map[KindKey := StrValue(kind.name)] + fields
  {
    BareKindRekinded(p, kind, fields);
    KindWithFieldsQueries(kind, map[KindKey := StrValue(kind.name)] + fields);
  }

  lemma BareKindRekinded(p: Printer, kind: ErrorKind, fields: Fields)
    requires IsValidKind(kind)
    ensures Rekind(p, KindError(kind), fields) == WithFields(KindError(kind), map[KindKey := StrValue(kind.name)] + fields)
  {
    assert FindKind(Some(KindError(kind))) == Some(kind);
    assert Rekind(p, KindError(kind), fields) == RekindAsWritten(p, KindError(kind), fields);
    RekindAsWrittenForgetsOriginal(p, KindError(kind), fields);
  }

  /** What the queries see on a field wrapper around a bare kind. */
  lemma KindWithFieldsQueries(kind: ErrorKind, payload: Fields)
    requires IsValidKind(kind)
    ensures GetKind(Some(WithFields(KindError(kind), payload))) == kind
    ensures Is(Some(WithFields(KindError(kind), payload)), Some(KindError(kind)))
    ensures GetFields(Some(WithFields(KindError(kind), payload))) == payload
  {
    assert FindNode(Some(WithFields(KindError(kind), payload))) == FindNode(Some(KindError(kind))) == None;
    assert FindKind(Some(WithFields(KindError(kind), payload))) == FindKind(Some(KindError(kind))) == Some(kind);
  }

  // ---- The khanError branch (lines 231-247) ----

  /** With no valid kind on the chain but a node whose kind is known, the
      node becomes the cause of a new error of that kind: GetKind reports
      it, Is matches the node and the kind, and every pair is shown. */
  lemma RekindKhanErrorBranch(p: Printer, err: Error, fields: Fields, k: string)
    requires FindKind(Some(err)).None? || !IsValidKind(FindKind(Some(err)).value)
    requires FindNode(Some(err)).Some? && !UnknownNodeKind(err)
    ensures var node, r := FindNode(Some(err)).value, RekindAsWritten(p, err, fields);
      && Rekind(p, err, fields) == r
      && GetKind(Some(r)) == NodeKind(Some(node))
      && Is(Some(r), Some(Node(node))) && Is(Some(r), Some(KindError(NodeKind(Some(node)))))
      && (k in fields ==> k in GetFields(Some(r)) && GetFields(Some(r))[k] == fields[k])
  {
    var node := FindNode(Some(err)).value;
    var kind := NodeKind(Some(node));
    assert RekindAsWritten(p, err, fields) == Construct(p, kind, [ErrValue(Node(node)), FieldsValue(fields)]);
    NodeCauseQueries(p, node, fields);
    CauseAndFieldsLookup(p, kind, Node(node), fields, k);
  }

  /** newError(getKind(node), node, fields): the node's kind, and Is holds
      for the node and for that kind. */
  lemma NodeCauseQueries(p: Printer, node: KhanError, fields: Fields)
    ensures var kind := NodeKind(Some(node));
      var r := Construct(p, kind, [ErrValue(Node(node)), FieldsValue(fields)]);
      GetKind(Some(r)) == kind && Is(Some(r), Some(Node(node))) && Is(Some(r), Some(KindError(kind)))
  {
    var kind := NodeKind(Some(node));
    var args := [ErrValue(Node(node)), FieldsValue(fields)];
    ErrAndFields(Node(node), fields);
    assert FindNode(Some(Node(node))) == Some(node);
    ConstructKind(p, kind, args);
    assert Is(Some(Node(node)), Some(Node(node)));
    ConstructIs(p, kind, args, Some(Node(node)));
  }

  /** A node whose kind is UnspecifiedKind makes Wrap fail: the result is
      the Internal report with its own message, wrapping the original and
      dropping the pairs. Its GetKind still reads UnspecifiedKind, since
      the node it wraps decides GetKind first. */
  lemma RekindUnknownKind(p: Printer, err: Error, fields: Fields)
    requires UnknownNodeKind(err)
    ensures var r := RekindAsWritten(p, err, fields);
      && Rekind(p, err, fields) == r
      && r == Internal(p, [StrValue(UnknownKindMessage), ErrValue(err)])
      && MessageKey in GetFields(Some(r)) && GetFields(Some(r))[MessageKey] == StrValue(UnknownKindMessage)
      && Is(Some(r), Some(KindError(InternalKind))) && Is(Some(r), Some(err))
      && GetKind(Some(r)) == UnspecifiedKind
  {
    UnknownKindReport(p, err);
  }

  lemma UnknownKindReport(p: Printer, err: Error)
    requires FindNode(Some(err)).Some? && NodeKind(FindNode(Some(err))) == UnspecifiedKind
    ensures var r := Internal(p, [StrValue(UnknownKindMessage), ErrValue(err)]);
      && MessageKey in GetFields(Some(r)) && GetFields(Some(r))[MessageKey] == StrValue(UnknownKindMessage)
      && Is(Some(r), Some(KindError(InternalKind))) && Is(Some(r), Some(err))
      && GetKind(Some(r)) == UnspecifiedKind
  {
    var args := [StrValue(UnknownKindMessage), ErrValue(err)];
    MessageAndErr(UnknownKindMessage, err);
    assert Internal(p, args) == Construct(p, InternalKind, args);
    OwnFieldsWin(p, InternalKind, args, MessageKey);
    assert Is(Some(err), Some(err));
    ConstructIs(p, InternalKind, args, Some(err));
    ConstructKind(p, InternalKind, args);
  }

  lemma MessageAndErr(message: string, err: Error)
    ensures Classify([StrValue(message), ErrValue(err)]) == Classified(Some(err), message, map[], [])
    ensures Rejected([StrValue(message), ErrValue(err)]) == []
  {
    var args := [StrValue(message), ErrValue(err)];
    assert args[..1] == [StrValue(message)] && args[..1][..0] == [];
    assert Classify(args[..1]) == Classified(None, message, map[], []);
    BadArgsInOrder(args);
  }

  /** Wrap keeps the kind of the error it wraps: with well-formed pairs, a
      valid kind on the chain survives, and the result still matches the
      original under Is. */
  lemma WrapKeepsKind(p: Printer, err: Error, args: seq<Value>)
    requires |args| % 2 == 0 && FirstBadKey(args, 0).None?
    requires FindKind(Some(err)).Some? && IsValidKind(FindKind(Some(err)).value)
    ensures var r := WrapSpec(p, Some(err), args);
      r.Some? && GetKind(r) == GetKind(Some(err)) && Is(r, Some(err))
  {
    if err.KindError? {
      RekindBareKind(p, err.kind, Pairs(args));
      assert GetKind(Some(err)) == err.kind;
    } else {
      RekindFoundInside(p, err, Pairs(args));
    }
  }

  /** The corrected valid-kind branch: GetKind is that of the original,
      whatever node it holds, and Is still matches the original. */
  lemma RekindFoundInside(p: Printer, err: Error, fields: Fields)
    requires KindFoundInside(err)
    ensures var r := Rekind(p, err, fields);
      GetKind(Some(r)) == GetKind(Some(err)) && Is(Some(r), Some(err))
  {
    var kind := FindKind(Some(err)).value;
    var args := [ErrValue(err), FieldsValue(fields)];
    assert Rekind(p, err, fields) == Construct(p, kind, args);
    ErrAndFields(err, fields);
    ConstructKind(p, kind, args);
    assert Is(Some(err), Some(err));
    ConstructIs(p, kind, args, Some(err));
  }

  /** Unless a node of unspecified kind makes Wrap fail, every pair given
      to Wrap shows in the result with the value of its last occurrence,
      in the corrected Wrap and in Wrap as written alike. */
  lemma WrapShowsPairs(p: Printer, err: Error, args: seq<Value>, k: string)
    requires |args| % 2 == 0 && FirstBadKey(args, 0).None?
    requires !UnknownNodeKind(err)
    requires k in Pairs(args)
    ensures var fields := GetFields(WrapSpec(p, Some(err), args));
      k in fields && fields[k] == Pairs(args)[k]
    ensures var fields := GetFields(WrapAsWrittenSpec(p, Some(err), args));
      k in fields && fields[k] == Pairs(args)[k]
  {
    RekindShowsPairs(p, err, Pairs(args), k);
    RekindAsWrittenShowsPairs(p, err, Pairs(args), k);
  }

  lemma RekindShowsPairs(p: Printer, err: Error, fields: Fields, k: string)
    requires !UnknownNodeKind(err) && k in fields
    ensures var r := Rekind(p, err, fields);
      k in GetFields(Some(r)) && GetFields(Some(r))[k] == fields[k]
  {
    if KindFoundInside(err) {
      var kind := FindKind(Some(err)).value;
      assert Rekind(p, err, fields) == Construct(p, kind, [ErrValue(err), FieldsValue(fields)]);
      CauseAndFieldsLookup(p, kind, err, fields, k);
    } else {
      RekindAsWrittenShowsPairs(p, err, fields, k);
    }
  }

  lemma RekindAsWrittenShowsPairs(p: Printer, err: Error, fields: Fields, k: string)
    requires !UnknownNodeKind(err) && k in fields
    ensures var r := RekindAsWritten(p, err, fields);
      k in GetFields(Some(r)) && GetFields(Some(r))[k] == fields[k]
  {
    var found := FindKind(Some(err));
    if found.Some? && IsValidKind(found.value) {
      RekindAsWrittenForgetsOriginal(p, err, fields);
      KindWithFieldsQueries(found.value, map[KindKey := StrValue(found.value.name)] + fields);
    } else if FindNode(Some(err)).None? {
      RekindForeign(p, err, fields, k);
    } else {
      RekindKhanErrorBranch(p, err, fields, k);
    }
  }

  // ---- The valid-kind branch as written ----

  /** As written, rewrapping an error whose chain carries a valid kind
      builds a fresh error from the kind and the new pairs alone: the
      original is no longer on the chain and none of its fields survive. */
  lemma RekindAsWrittenForgetsOriginal(p: Printer, err: Error, fields: Fields)
    requires FindKind(Some(err)).Some? && IsValidKind(FindKind(Some(err)).value)
    ensures var kind := FindKind(Some(err)).value;
      RekindAsWritten(p, err, fields) == WithFields(KindError(kind), map[KindKey := StrValue(kind.name)] + fields)
  {
    var kind := FindKind(Some(err)).value;
    assert RekindAsWritten(p, err, fields) == Construct(p, kind, [FieldsValue(fields)]);
    ConstructFromFields(p, kind, fields);
  }

  /** newError(kind, err, fields) for an err other than the bare kind keeps
      err, tagged with the kind, directly under the field wrapper. */
  lemma CauseAndFieldsShape(p: Printer, kind: ErrorKind, err: Error, fields: Fields)
    requires err != KindError(kind)
    ensures var r := Construct(p, kind, [ErrValue(err), FieldsValue(fields)]);
      r.WithFields? && r.cause == Tagged(err, kind)
  {
    var args := [ErrValue(err), FieldsValue(fields)];
    ErrAndFields(err, fields);
    var n := BuildNode(p, kind, args);
    assert n.wrappedErr == Some(err);
    assert Construct(p, kind, args) == Emit(kind, Some(err), MergedFields(p, n));
  }

  /** Wrap as written and the corrected Wrap give the same result except
      when the pairs are well formed and a valid kind is found inside a
      larger error; there they differ. */
  lemma WrapVersionsAgree(p: Printer, err: Option<Error>, args: seq<Value>)
    ensures WrapAsWrittenSpec(p, err, args) == WrapSpec(p, err, args)
      <==> !(err.Some? && ArgsReport(p, err.value, args).None? && KindFoundInside(err.value))
  {
    if err.Some? && ArgsReport(p, err.value, args).None? && KindFoundInside(err.value) {
      var e, pairs := err.value, Pairs(args);
      var kind := FindKind(Some(e)).value;
      RekindAsWrittenForgetsOriginal(p, e, pairs);
      assert Rekind(p, e, pairs) == Construct(p, kind, [ErrValue(e), FieldsValue(pairs)]);
      CauseAndFieldsShape(p, kind, e, pairs);
      assert Rekind(p, e, pairs).cause != RekindAsWritten(p, e, pairs).cause;
    }
  }

  /** Wrap as written, on well-formed pairs and an error whose chain
      carries a valid kind: the result is a fresh error of that kind whose
      fields are {Kind} and the pairs, and it matches the original under Is
      only when the original was the bare kind or that very error. */
  lemma WrapAsWrittenReplaces(p: Printer, err: Error, args: seq<Value>)
    requires |args| % 2 == 0 && FirstBadKey(args, 0).None?
    requires FindKind(Some(err)).Some? && IsValidKind(FindKind(Some(err)).value)
    ensures var kind, r := FindKind(Some(err)).value, WrapAsWrittenSpec(p, Some(err), args);
      && r.Some? && GetKind(r) == kind
      && GetFields(r) == map[KindKey := StrValue(kind.name)] + Pairs(args)
      && (Is(r, Some(err)) <==> err == KindError(kind) || r == Some(err))
  {
    var kind := FindKind(Some(err)).value;
    var m := map[KindKey := StrValue(kind.name)] + Pairs(args);
    RekindAsWrittenForgetsOriginal(p, err, Pairs(args));
    KindWithFieldsQueries(kind, m);
    KindWithFieldsMatches(kind, m, err);
  }

  /** newError(kind, fields): the fields and the kind around the bare kind. */
  lemma ConstructFromFields(p: Printer, kind: ErrorKind, fields: Fields)
    requires IsValidKind(kind)
    ensures Construct(p, kind, [FieldsValue(fields)]) == WithFields(KindError(kind), map[KindKey := StrValue(kind.name)] + fields)
  {
    var args := [FieldsValue(fields)];
    FieldsOnly(fields);
    var n := BuildNode(p, kind, args);
    assert n == KhanError("", kind, None, fields);
    assert WrappedFields(p, Some(n)) == [];
    assert NodeKind(Some(n)) == kind;
  }

  /** A field wrapper around a bare kind matches itself and the kind, and
      nothing else. */
  lemma KindWithFieldsMatches(kind: ErrorKind, payload: Fields, e: Error)
    ensures Is(Some(WithFields(KindError(kind), payload)), Some(e))
      <==> e == WithFields(KindError(kind), payload) || e == KindError(kind)
  {
    assert Is(Some(KindError(kind)), Some(e)) <==> e == KindError(kind);
  }

  lemma FieldsOnly(fields: Fields)
    ensures Classify([FieldsValue(fields)]) == Classified(None, "", fields, [])
  {
    var args := [FieldsValue(fields)];
    assert args[..|args| - 1] == [];
    assert Classify(args) == Step(Classify([]), FieldsValue(fields));
  }

  lemma MessageAndFields(message: string, fields: Fields)
    ensures Classify([StrValue(message), FieldsValue(fields)]) == Classified(None, message, fields, [])
    ensures Rejected([StrValue(message), FieldsValue(fields)]) == []
  {
    var args := [StrValue(message), FieldsValue(fields)];
    assert args[..1] == [StrValue(message)] && args[..1][..0] == [];
    assert Classify(args[..1]) == Classified(None, message, map[], []);
    BadArgsInOrder(args);
  }

  /** An error built from a message and a field map: the fields around the
      bare kind, with the message under "Message". */
  lemma MessageAndFieldsShown(p: Printer, kind: ErrorKind, message: string, fields: Fields)
    requires message != ""
    ensures var e := Construct(p, kind, [StrValue(message), FieldsValue(fields)]);
      && e == WithFields(KindError(kind), GetFields(Some(e)))
      && MessageKey in GetFields(Some(e)) && GetFields(Some(e))[MessageKey] == StrValue(message)
  {
    MessageAndFields(message, fields);
    OwnFieldsWin(p, kind, [StrValue(message), FieldsValue(fields)], MessageKey);
  }

  /** The error TestWrap rewraps: NotFound("Testing one two", {three: "not yet"}). */
  function TestWrapError(p: Printer): (e: Error)
    ensures e == WithFields(KindError(NotFoundKind), GetFields(Some(e)))
    ensures FindKind(Some(e)) == Some(NotFoundKind) && FindNode(Some(e)).None?
    ensures MessageKey in GetFields(Some(e)) && GetFields(Some(e))[MessageKey] == StrValue("Testing one two")
  {
    var args := [StrValue("Testing one two"), FieldsValue(map["three" := StrValue("not yet")])];
    MessageAndFieldsShown(p, NotFoundKind, "Testing one two", map["three" := StrValue("not yet")]);
    var e := NotFound(p, args);
    assert FindKind(Some(KindError(NotFoundKind))) == Some(NotFoundKind);
    assert FindNode(Some(KindError(NotFoundKind))) == None;
    e
  }

  /** As written, the message of a rewrapped error is lost when the new
      pairs do not set one, and the error itself is no longer matched by Is. */
  lemma RekindAsWrittenLosesMessage(p: Printer, kind: ErrorKind, payload: Fields, pairs: Fields)
    requires IsValidKind(kind) && MessageKey in payload && MessageKey !in pairs
    ensures var e := WithFields(KindError(kind), payload);
      var written := RekindAsWritten(p, e, pairs);
      MessageKey !in GetFields(Some(written)) && !Is(Some(written), Some(e))
  {
    var e := WithFields(KindError(kind), payload);
    assert FindKind(Some(e)) == FindKind(Some(KindError(kind))) == Some(kind);
    RekindAsWrittenForgetsOriginal(p, e, pairs);
    var m := map[KindKey := StrValue(kind.name)] + pairs;
    assert MessageKey !in m;
    KindWithFieldsQueries(kind, m);
    KindWithFieldsMatches(kind, m, e);
  }

  /** Wrap(e, "three", 4) on TestWrap's error, as written: the message of e
      is lost and e is no longer on the chain. */
  lemma TestWrapAsWritten(p: Printer)
    ensures var e := TestWrapError(p);
      var written := RekindAsWritten(p, e, map["three" := IntValue(4)]);
      MessageKey !in GetFields(Some(written)) && !Is(Some(written), Some(e))
  {
    var e := TestWrapError(p);
    RekindAsWrittenLosesMessage(p, NotFoundKind, e.payload, map["three" := IntValue(4)]);
  }

  /** The same call with the corrected choice keeps the message and shows
      the new value of "three", as the package's test expects. */
  lemma TestWrapCorrected(p: Printer)
    ensures var e, pairs := TestWrapError(p), map["three" := IntValue(4)];
      var fields := GetFields(Some(Rekind(p, e, pairs)));
      && MessageKey in fields && fields[MessageKey] == StrValue("Testing one two")
      && "three" in fields && fields["three"] == IntValue(4)
  {
    TestWrapKeepsMessage(p);
    TestWrapShowsThree(p);
  }

  lemma TestWrapKeepsMessage(p: Printer)
    ensures var fields := GetFields(Some(Rekind(p, TestWrapError(p), map["three" := IntValue(4)])));
      MessageKey in fields && fields[MessageKey] == StrValue("Testing one two")
  {
    var pairs := map["three" := IntValue(4)];
    assert MessageKey !in pairs && MessageKey != KindKey && MessageKey !in PositionalKeys;
    RekindKeepsKindAndFields(p, TestWrapError(p), pairs, MessageKey);
  }

  lemma TestWrapShowsThree(p: Printer)
    ensures var fields := GetFields(Some(Rekind(p, TestWrapError(p), map["three" := IntValue(4)])));
      "three" in fields && fields["three"] == IntValue(4)
  {
    RekindKeepsKindAndFields(p, TestWrapError(p), map["three" := IntValue(4)], "three");
  }
}
