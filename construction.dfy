/** newError: classifying the variadic arguments, merging fields, and the
    chain of wrappers the result is built from (errors/khan.go:24-45, 119-185). */
module Construction {
  import opened Kinds
  import opened Chain
  import opened Resolution
  import opened Display

  const MessageKey := "Message"
  const KindKey := "Kind"
  const BadArgsKey := "badargs"
  const InvalidErrArgsKey := "Invalid error arguments"
  const BadArgsPrefix := "Invalid error constructor argument(s): "
  /** Keys that describe where an error was raised; they are never inherited. */
  const PositionalKeys: set<string> := {"Source", "Origin"}

  // ---- Classifying the arguments ----

  /** The argument types the type switch has a case for. */
  predicate Accepted(v: Value)
  {
    v.ErrValue? || v.StrValue? || v.FieldsValue? || v.MapValue?
  }

  /** The slots the arguments are sorted into. */
  datatype Classified = Classified(cause: Option<Error>, message: string, extra: Fields, badArgs: seq<Value>)

  /** One turn of the type switch: an error becomes the cause, a string the
      message, a field map the extra map, anything else a bad argument. */
  function Step(c: Classified, v: Value): Classified
  {
    match v
    case ErrValue(err) => c.(cause := Some(err))
    case StrValue(s) => c.(message := s)
    case FieldsValue(f) => c.(extra := f)
    case MapValue(m) => c.(extra := m)
    case _ => c.(badArgs := c.badArgs + [v])
  }

  /** The slots after the switch has seen every argument in order. */
  function Classify(args: seq<Value>): Classified
  {
    if args == [] then Classified(None, "", map[], [])
    else Step(Classify(args[..|args| - 1]), args[|args| - 1])
  }

  /** The arguments no case accepts, in argument order. */
  function Rejected(args: seq<Value>): (bad: seq<Value>)
    ensures forall v :: v in bad ==> v in args && !Accepted(v)
  {
    if args == [] then []
    else (if Accepted(args[0]) then [] else [args[0]]) + Rejected(args[1..])
  }

  lemma {:induction false} RejectedAppend(a: seq<Value>, v: Value)
    ensures Rejected(a + [v]) == Rejected(a) + (if Accepted(v) then [] else [v])
    decreases |a|
  {
    if a == [] {
      assert [] + [v] == [v];
    } else {
      var head := if Accepted(a[0]) then [] else [a[0]];
      assert (a + [v])[0] == a[0] && (a + [v])[1..] == a[1..] + [v];
      assert Rejected(a + [v]) == head + Rejected(a[1..] + [v]);
      RejectedAppend(a[1..], v);
      assert Rejected(a) == head + Rejected(a[1..]);
    }
  }

  /** Bad arguments are kept, all of them and in order. */
  lemma {:induction false} BadArgsInOrder(args: seq<Value>)
    ensures Classify(args).badArgs == Rejected(args)
    decreases |args|
  {
    if args != [] {
      var front, last := args[..|args| - 1], args[|args| - 1];
      BadArgsInOrder(front);
      StepKeepsBadArgs(Classify(front), last);
      assert args == front + [last];
      RejectedAppend(front, last);
    }
  }

  lemma StepKeepsBadArgs(c: Classified, v: Value)
    ensures Step(c, v).badArgs == c.badArgs + (if Accepted(v) then [] else [v])
  {
  }

  /** The cause is the last error argument, and nil when there is none. */
  lemma {:induction false} CauseIsLastError(args: seq<Value>)
    ensures (forall i :: 0 <= i < |args| ==> !args[i].ErrValue?) ==> Classify(args).cause.None?
    ensures forall i :: 0 <= i < |args| && args[i].ErrValue? ==>
      (forall j :: i < j < |args| ==> !args[j].ErrValue?) ==> Classify(args).cause == Some(args[i].err)
    decreases |args|
  {
    if args != [] {
      var front, last := args[..|args| - 1], args[|args| - 1];
      CauseIsLastError(front);
      assert Classify(args).cause == if last.ErrValue? then Some(last.err) else Classify(front).cause;
      assert forall i :: 0 <= i < |front| ==> front[i] == args[i];
      forall i | 0 <= i < |args| && args[i].ErrValue? && (forall j :: i < j < |args| ==> !args[j].ErrValue?)
        ensures Classify(args).cause == Some(args[i].err)
      {
        if i < |front| {
          assert !last.ErrValue?;
          assert forall j :: i < j < |front| ==> !front[j].ErrValue?;
        }
      }
    }
  }

  /** The message is the last string argument, and empty when there is none. */
  lemma {:induction false} MessageIsLastString(args: seq<Value>)
    ensures (forall i :: 0 <= i < |args| ==> !args[i].StrValue?) ==> Classify(args).message == ""
    ensures forall i :: 0 <= i < |args| && args[i].StrValue? ==>
      (forall j :: i < j < |args| ==> !args[j].StrValue?) ==> Classify(args).message == args[i].s
    decreases |args|
  {
    if args != [] {
      var front, last := args[..|args| - 1], args[|args| - 1];
      MessageIsLastString(front);
      assert Classify(args).message == if last.StrValue? then last.s else Classify(front).message;
      assert forall i :: 0 <= i < |front| ==> front[i] == args[i];
      forall i | 0 <= i < |args| && args[i].StrValue? && (forall j :: i < j < |args| ==> !args[j].StrValue?)
        ensures Classify(args).message == args[i].s
      {
        if i < |front| {
          assert !last.StrValue?;
          assert forall j :: i < j < |front| ==> !front[j].StrValue?;
        }
      }
    }
  }

  /** The map an argument supplies as the extra fields, if it is one. */
  function ExtraOf(v: Value): Option<Fields>
  {
    match v
    case FieldsValue(f) => Some(f)
    case MapValue(m) => Some(m)
    case _ => None
  }

  /** The extra map is the last map argument, of either map type, and empty
      when there is none. */
  lemma {:induction false} ExtraIsLastMap(args: seq<Value>)
    ensures (forall i :: 0 <= i < |args| ==> ExtraOf(args[i]).None?) ==> Classify(args).extra == map[]
    ensures forall i :: 0 <= i < |args| && ExtraOf(args[i]).Some? ==>
      (forall j :: i < j < |args| ==> ExtraOf(args[j]).None?) ==> Classify(args).extra == ExtraOf(args[i]).value
    decreases |args|
  {
    if args != [] {
      var front, last := args[..|args| - 1], args[|args| - 1];
      ExtraIsLastMap(front);
      assert Classify(args).extra == if ExtraOf(last).Some? then ExtraOf(last).value else Classify(front).extra;
      assert forall i :: 0 <= i < |front| ==> front[i] == args[i];
      forall i | 0 <= i < |args| && ExtraOf(args[i]).Some? && (forall j :: i < j < |args| ==> ExtraOf(args[j]).None?)
        ensures Classify(args).extra == ExtraOf(args[i]).value
      {
        if i < |front| {
          assert ExtraOf(last).None?;
          assert forall j :: i < j < |front| ==> ExtraOf(front[j]).None?;
        }
      }
    }
  }

  /** One rendered (%#v) string per bad argument, in order. */
  function Details(p: Printer, bad: seq<Value>): (details: seq<string>)
    ensures |details| == |bad|
  {
    seq(|bad|, i requires 0 <= i < |bad| => p.verbSharpV(bad[i]))
  }

  /** The node newError assembles before merging fields: with bad
      arguments, the message gains a prefix and the extra map a diagnostic
      entry. */
  function BuildNode(p: Printer, kind: ErrorKind, args: seq<Value>): (n: KhanError)
    ensures n.kind == kind && n.wrappedErr == Classify(args).cause
  {
    var c := Classify(args);
    if |c.badArgs| > 0 then
      KhanError(BadArgsPrefix + c.message, kind, c.cause, c.extra[InvalidErrArgsKey := StrsValue(Details(p, c.badArgs))])
    else
      KhanError(c.message, kind, c.cause, c.extra)
  }

  // ---- The fields of the wrapped errors ----

  /** khanError.wrappedErrors: what a node inherits from below. Nothing for
      a nil node or cause; the cause's fields when it has some; the cause's
      text when no node is inside it; otherwise the inner node's message and
      kind followed by the inner node's own list. */
  function WrappedFields(p: Printer, e: Option<KhanError>): (list: seq<Fields>)
    ensures |list| <= RefDepth(e)
    ensures list == [] <==> e.None? || e.value.wrappedErr.None?
    ensures e.Some? && e.value.wrappedErr.Some? ==>
      var cause := e.value.wrappedErr;
      (|GetFields(cause)| != 0 ==> list == [GetFields(cause)]) &&
      (|GetFields(cause)| == 0 && FindNode(cause).None? ==> list == [map[MessageKey := StrValue(ErrorText(p, cause.value))]]) &&
      (|GetFields(cause)| == 0 && FindNode(cause).Some? ==>
         var node := FindNode(cause).value;
         list == [map[MessageKey := StrValue(node.message), KindKey := StrValue(NodeKind(Some(node)).name)]] + WrappedFields(p, Some(node)))
    decreases RefDepth(e)
  {
    match e
    case None => []
    case Some(n) =>
      match n.wrappedErr
      case None => []
      case Some(c) =>
        var inner := GetFields(Some(c));
        if |inner| != 0 then [inner]
        else
          match FindNode(Some(c))
          case None => [map[MessageKey := StrValue(ErrorText(p, c))]]
          case Some(node) =>
            [map[MessageKey := StrValue(node.message), KindKey := StrValue(NodeKind(Some(node)).name)]]
            + WrappedFields(p, Some(node))
  }

  // ---- Merging the fields ----

  /** Copies the keys of `f` that are neither present yet nor positional. */
  function Inherit(fields: Fields, f: Fields): (r: Fields)
    ensures forall k :: k in fields ==> k in r && r[k] == fields[k]
    ensures forall k :: k !in fields && k in f && k !in PositionalKeys ==> k in r && r[k] == f[k]
    ensures forall k :: k in r ==> k in fields || (k in f && k !in PositionalKeys)
  {
    map k | k in fields.Keys + (f.Keys - PositionalKeys) :: if k in fields then fields[k] else f[k]
  }

  /** The inner loop of the merge, visiting the keys of `f` in whatever
      order the map yields them: every order gives the same result. */
  method InheritInto(fields: Fields, f: Fields) returns (r: Fields)
    ensures r == Inherit(fields, f)
  {
    r := fields;
    var unseen := f.Keys;
    while unseen != {}
      invariant unseen <= f.Keys
      invariant r == Inherit(fields, map k | k in f && k !in unseen :: f[k])
      decreases unseen
    {
      var s :| s in unseen;
      if s !in r && s !in PositionalKeys {
        r := r[s := f[s]];
      }
      unseen := unseen - {s};
    }
    assert (map k | k in f && k !in unseen :: f[k]) == f;
  }

  /** Inherit from each list entry in turn. */
  function InheritAll(fields: Fields, list: seq<Fields>): Fields
  {
    if list == [] then fields
    else Inherit(InheritAll(fields, list[..|list| - 1]), list[|list| - 1])
  }

  /** The value of `k` in the first list entry that has it. */
  function FirstProvider(list: seq<Fields>, k: string): Option<Value>
  {
    if list == [] then None
    else if k in list[0] then Some(list[0][k])
    else FirstProvider(list[1..], k)
  }

  lemma {:induction false} FirstProviderAppend(list: seq<Fields>, f: Fields, k: string)
    ensures FirstProvider(list + [f], k)
      == if FirstProvider(list, k).Some? then FirstProvider(list, k) else if k in f then Some(f[k]) else None
    decreases |list|
  {
    if list != [] {
      assert (list + [f])[1..] == list[1..] + [f];
      FirstProviderAppend(list[1..], f, k);
    }
  }

  /** Inheriting from a list keeps every key already present and takes each
      other non-positional key from the earliest entry that has it. */
  lemma {:induction false} InheritAllTakesEarliest(fields: Fields, list: seq<Fields>, k: string)
    ensures k in fields ==> k in InheritAll(fields, list) && InheritAll(fields, list)[k] == fields[k]
    ensures k !in fields && k in PositionalKeys ==> k !in InheritAll(fields, list)
    ensures k !in fields && k !in PositionalKeys ==>
      (k in InheritAll(fields, list) <==> FirstProvider(list, k).Some?) &&
      (k in InheritAll(fields, list) ==> InheritAll(fields, list)[k] == FirstProvider(list, k).value)
    decreases |list|
  {
    if list != [] {
      var front := list[..|list| - 1];
      InheritAllTakesEarliest(fields, front, k);
      assert list == front + [list[|list| - 1]];
      FirstProviderAppend(front, list[|list| - 1], k);
    }
  }

  /** The merge of lines 155-177: {Kind}, then what is inherited from the
      list, then the own extra map, then a non-empty message. */
  function Merge(kindName: string, list: seq<Fields>, extra: Fields, message: string): (fields: Fields)
    ensures KindKey in fields
  {
    var start := map[KindKey := StrValue(kindName)];
    InheritAllTakesEarliest(start, list, KindKey);
    WithMessageLookup(InheritAll(start, list) + extra, message, KindKey);
    WithMessage(InheritAll(start, list) + extra, message)
  }

  /** The last step of the merge: a non-empty message is set under "Message". */
  function WithMessage(own: Fields, message: string): Fields
  {
    if message != "" then
      if |own| == 0 then map[MessageKey := StrValue(message)] else own[MessageKey := StrValue(message)]
    else own
  }

  /** The merged field map of a node. */
  function MergedFields(p: Printer, n: KhanError): Fields
  {
    Merge(NodeKind(Some(n)).name, WrappedFields(p, Some(n)), n.extra, n.message)
  }

  /** Where the merged value of a key comes from, in precedence order: a
      non-empty message; the own extra map; the computed kind; the earliest
      inherited entry, for keys other than Source and Origin. */
  function Provider(kindName: string, list: seq<Fields>, extra: Fields, message: string, k: string): Option<Value>
  {
    if k == MessageKey && message != "" then Some(StrValue(message))
    else if k in extra then Some(extra[k])
    else if k == KindKey then Some(StrValue(kindName))
    else if k in PositionalKeys then None
    else FirstProvider(list, k)
  }

  /** The merge follows the precedence order, key by key. */
  lemma MergePrecedence(kindName: string, list: seq<Fields>, extra: Fields, message: string, k: string)
    ensures k in Merge(kindName, list, extra, message) <==> Provider(kindName, list, extra, message, k).Some?
    ensures k in Merge(kindName, list, extra, message) ==>
      Merge(kindName, list, extra, message)[k] == Provider(kindName, list, extra, message, k).value
  {
    var start := map[KindKey := StrValue(kindName)];
    var own := InheritAll(start, list) + extra;
    assert Merge(kindName, list, extra, message) == WithMessage(own, message);
    WithMessageLookup(own, message, k);
    InheritAllTakesEarliest(start, list, k);
  }

  lemma WithMessageLookup(own: Fields, message: string, k: string)
    ensures k in WithMessage(own, message) <==> k in own || (k == MessageKey && message != "")
    ensures k in WithMessage(own, message) ==>
      WithMessage(own, message)[k] == if k == MessageKey && message != "" then StrValue(message) else own[k]
  {
  }

  // ---- The result ----

  /** The chain newError returns: the fields wrapped around the bare kind
      when there is no other cause; otherwise around the cause tagged with
      the kind, so that Is holds for both. */
  function Emit(kind: ErrorKind, cause: Option<Error>, fields: Fields): (r: Error)
    ensures r.WithFields? && r.payload == fields
  {
    if cause.None? || cause == Some(KindError(kind)) then WithFields(KindError(kind), fields)
    else WithFields(Tagged(cause.value, kind), fields)
  }

  /** newError as a value. */
  function Construct(p: Printer, kind: ErrorKind, args: seq<Value>): (r: Error)
    ensures GetFields(Some(r)) == MergedFields(p, BuildNode(p, kind, args))
  {
    var n := BuildNode(p, kind, args);
    var r := Emit(kind, n.wrappedErr, MergedFields(p, n));
    assert ChainOf(Some(r))[0].WithFields?;
    r
  }

  /** The argument loop of newError: sorts each argument into its slot. */
  method ClassifyArgs(args: seq<Value>) returns (c: Classified)
    ensures c == Classify(args)
  {
    var wrappedErr: Option<Error> := None;
    var message := "";
    var extra: Fields := map[];
    var badArgs: seq<Value> := [];
    for i := 0 to |args|
      invariant Classified(wrappedErr, message, extra, badArgs) == Classify(args[..i])
    {
      assert args[..i + 1][..i] == args[..i];
      match args[i]
      case ErrValue(err) => wrappedErr := Some(err);
      case StrValue(s) => message := s;
      case FieldsValue(f) => extra := f;
      case MapValue(m) => extra := m;
      case _ => badArgs := badArgs + [args[i]];
    }
    assert args[..|args|] == args;
    c := Classified(wrappedErr, message, extra, badArgs);
  }

  /** Renders each bad argument into a fresh string array, in order. */
  method RenderDetails(p: Printer, badArgs: seq<Value>) returns (details: seq<string>)
    ensures details == Details(p, badArgs)
  {
    var buffer := new string[|badArgs|];
    for i := 0 to |badArgs|
      invariant forall j :: 0 <= j < i ==> buffer[j] == p.verbSharpV(badArgs[j])
    {
      buffer[i] := p.verbSharpV(badArgs[i]);
    }
    details := buffer[..];
  }

  /** The outer merge loop of newError: inherit from each wrapped entry in turn. */
  method InheritLoop(start: Fields, list: seq<Fields>) returns (fields: Fields)
    ensures fields == InheritAll(start, list)
  {
    fields := start;
    for i := 0 to |list|
      invariant fields == InheritAll(start, list[..i])
    {
      assert list[..i + 1][..i] == list[..i];
      fields := InheritInto(fields, list[i]);
    }
    assert list[..|list|] == list;
  }

  /** The own-fields loop of newError: copies every entry of `extra` over
      `fields`, in whatever order the map yields them. */
  method OverlayLoop(fields: Fields, extra: Fields) returns (r: Fields)
    ensures r == fields + extra
  {
    r := fields;
    var unseen := extra.Keys;
    while unseen != {}
      invariant unseen <= extra.Keys
      invariant r == fields + map k | k in extra && k !in unseen :: extra[k]
      decreases unseen
    {
      var k :| k in unseen;
      r := r[k := extra[k]];
      unseen := unseen - {k};
    }
    assert (map k | k in extra && k !in unseen :: extra[k]) == extra;
  }

  /** The message step of newError, on the merged map. */
  method SetMessage(own: Fields, message: string) returns (fields: Fields)
    ensures fields == WithMessage(own, message)
  {
    fields := own;
    if message != "" {
      if |fields| == 0 {
        fields := map[MessageKey := StrValue(message)];
      } else {
        fields := fields[MessageKey := StrValue(message)];
      }
    }
  }

  /** newError, step by step as the source does it. */
  method NewError(p: Printer, kind: ErrorKind, args: seq<Value>) returns (r: Error)
    ensures r == Construct(p, kind, args)
  {
    var c := ClassifyArgs(args);
    var message, extra := c.message, c.extra;
    if |c.badArgs| > 0 {
      message := BadArgsPrefix + message;
      var details := RenderDetails(p, c.badArgs);
      extra := extra[InvalidErrArgsKey := StrsValue(details)];
    }
    var node := KhanError(message, kind, c.cause, extra);
    assert node == BuildNode(p, kind, args);

    var fields := map[KindKey := StrValue(NodeKind(Some(node)).name)];
    fields := InheritLoop(fields, WrappedFields(p, Some(node)));
    fields := OverlayLoop(fields, extra);
    fields := SetMessage(fields, message);

    if c.cause.None? || c.cause == Some(KindError(kind)) {
      r := WithFields(KindError(kind), fields);
    } else {
      r := WithFields(Tagged(c.cause.value, kind), fields);
    }
  }

  // ---- What newError promises ----

  /** The queries on the result: As finds the same node as on the cause and
      finds the kind first. */
  lemma EmitQueries(kind: ErrorKind, cause: Option<Error>, fields: Fields)
    ensures FindNode(Some(Emit(kind, cause, fields))) == FindNode(cause)
    ensures FindKind(Some(Emit(kind, cause, fields))) == Some(kind)
  {
    var r := Emit(kind, cause, fields);
    assert FindKind(Some(r)) == FindKind(Unwrap(r));
    assert FindNode(Some(r)) == FindNode(Unwrap(r));
    if cause.None? || cause == Some(KindError(kind)) {
      assert FindNode(Unwrap(r)) == FindNode(None);
    } else {
      assert FindNode(Unwrap(r)) == FindNode(cause);
    }
  }

  /** The result answers Is for its kind, and for everything its cause
      answers Is for: the double wrapping keeps both visible. */
  lemma EmitIs(kind: ErrorKind, cause: Option<Error>, fields: Fields, reference: Option<Error>)
    ensures Is(Some(Emit(kind, cause, fields)), Some(KindError(kind)))
    ensures cause.Some? && Is(cause, reference) ==> Is(Some(Emit(kind, cause, fields)), reference)
  {
    var r := Emit(kind, cause, fields);
    var next := Unwrap(r);
    assert LinkMatches(next.value, KindError(kind));
    assert Is(next, Some(KindError(kind)));
    if cause.Some? && Is(cause, reference) {
      if cause == Some(KindError(kind)) {
        assert next == cause;
      } else {
        assert Unwrap(next.value) == cause;
        assert reference.Some?;
        assert Is(next, reference);
      }
    }
  }

  /** Is on a new error: true for its kind, and for whatever its cause is
      true for. */
  lemma ConstructIs(p: Printer, kind: ErrorKind, args: seq<Value>, reference: Option<Error>)
    ensures Is(Some(Construct(p, kind, args)), Some(KindError(kind)))
    ensures Classify(args).cause.Some? && Is(Classify(args).cause, reference) ==>
      Is(Some(Construct(p, kind, args)), reference)
  {
    var n := BuildNode(p, kind, args);
    EmitIs(kind, n.wrappedErr, MergedFields(p, n), reference);
  }

  /** A result built without a cause matches no other kind. */
  lemma EmitMatchesOnlyItsKind(kind: ErrorKind, fields: Fields, other: ErrorKind)
    requires other != kind
    ensures !Is(Some(Emit(kind, None, fields)), Some(KindError(other)))
  {
    var r := Emit(kind, None, fields);
    assert Is(Some(r), Some(KindError(other))) == Is(Some(KindError(kind)), Some(KindError(other)));
    assert Is(Some(KindError(kind)), Some(KindError(other))) == Is(None, Some(KindError(other)));
  }

  /** GetKind of a new error: the kind of the first node inside its cause
      when there is one, else the requested kind when valid, else
      UnspecifiedKind. */
  lemma ConstructKind(p: Printer, kind: ErrorKind, args: seq<Value>)
    ensures FindNode(Classify(args).cause).None? ==>
      GetKind(Some(Construct(p, kind, args))) == if IsValidKind(kind) then kind else UnspecifiedKind
    ensures FindNode(Classify(args).cause).Some? ==>
      GetKind(Some(Construct(p, kind, args))) == NodeKind(FindNode(Classify(args).cause))
    ensures IsKhanError(Some(Construct(p, kind, args))) == IsValidKind(kind)
  {
    var n := BuildNode(p, kind, args);
    EmitQueries(kind, n.wrappedErr, MergedFields(p, n));
  }

  /** newError with no arguments carries exactly the Kind field. */
  lemma NoArgsFields(p: Printer, kind: ErrorKind)
    ensures GetFields(Some(Construct(p, kind, [])))
      == map[KindKey := StrValue((if IsValidKind(kind) then kind else UnspecifiedKind).name)]
  {
    var n := BuildNode(p, kind, []);
    assert n == KhanError("", kind, None, map[]);
    assert WrappedFields(p, Some(n)) == [];
    assert NodeKind(Some(n)) == if IsValidKind(kind) then kind else UnspecifiedKind;
    var start := map[KindKey := StrValue(NodeKind(Some(n)).name)];
    assert InheritAll(start, []) + map[] == start;
  }

  /** Bad arguments fail soft: the message gains the prefix and every bad
      argument is reported, rendered, in order, under "Invalid error arguments". */
  lemma BadArgsReported(p: Printer, kind: ErrorKind, args: seq<Value>)
    requires Rejected(args) != []
    ensures var fields := GetFields(Some(Construct(p, kind, args)));
      && MessageKey in fields && fields[MessageKey] == StrValue(BadArgsPrefix + Classify(args).message)
      && InvalidErrArgsKey in fields && fields[InvalidErrArgsKey] == StrsValue(Details(p, Rejected(args)))
  {
    BadArgsInOrder(args);
    var n := BuildNode(p, kind, args);
    var kindName, list := NodeKind(Some(n)).name, WrappedFields(p, Some(n));
    MergePrecedence(kindName, list, n.extra, n.message, MessageKey);
    MergePrecedence(kindName, list, n.extra, n.message, InvalidErrArgsKey);
  }

  /** Unwrapping a new error twice gives its cause back, unless the cause
      was the bare kind itself. */
  lemma UnwrapTwiceGivesCause(p: Printer, kind: ErrorKind, args: seq<Value>)
    requires Classify(args).cause.Some? && Classify(args).cause != Some(KindError(kind))
    ensures var r := Construct(p, kind, args);
      Unwrap(r).Some? && Unwrap(Unwrap(r).value) == Classify(args).cause
  {
    var n := BuildNode(p, kind, args);
    EmitUnwrapTwice(kind, n.wrappedErr, MergedFields(p, n));
  }

  lemma EmitUnwrapTwice(kind: ErrorKind, cause: Option<Error>, fields: Fields)
    requires cause.Some? && cause != Some(KindError(kind))
    ensures var r := Emit(kind, cause, fields);
      Unwrap(r).Some? && Unwrap(Unwrap(r).value) == cause
  {
  }

  /** A foreign cause without fields passes its text on as the message. */
  lemma ForeignCauseText(p: Printer, kind: ErrorKind, text: string)
    requires IsValidKind(kind)
    ensures GetFields(Some(Construct(p, kind, [ErrValue(Foreign(text, None))])))
      == map[KindKey := StrValue(kind.name), MessageKey := StrValue(text)]
  {
    var cause := Foreign(text, None);
    var args := [ErrValue(cause)];
    assert args[..0] == [];
    assert Classify(args) == Classified(Some(cause), "", map[], []);
    var n := BuildNode(p, kind, args);
    assert n == KhanError("", kind, Some(cause), map[]);
    var list := ForeignCauseList(p, n, text);
    assert NodeKind(Some(n)) == kind;
    ForeignMerge(kind.name, text, list);
  }

  lemma ForeignCauseList(p: Printer, n: KhanError, text: string) returns (list: seq<Fields>)
    requires n.wrappedErr == Some(Foreign(text, None))
    ensures list == WrappedFields(p, Some(n)) && list == [map[MessageKey := StrValue(text)]]
  {
    var cause := Foreign(text, None);
    assert GetFields(Some(cause)) == map[] by {
      assert FieldsOf(Some(cause)) == FieldsOf(None);
    }
    assert FindNode(Some(cause)) == FindNode(None);
    list := WrappedFields(p, Some(n));
  }

  lemma ForeignMerge(kindName: string, text: string, list: seq<Fields>)
    requires list == [map[MessageKey := StrValue(text)]]
    ensures Merge(kindName, list, map[], "") == map[KindKey := StrValue(kindName), MessageKey := StrValue(text)]
  {
    var merged := Merge(kindName, list, map[], "");
    var expected := map[KindKey := StrValue(kindName), MessageKey := StrValue(text)];
    forall k
      ensures k in merged <==> k in expected
      ensures k in merged ==> merged[k] == expected[k]
    {
      MergePrecedence(kindName, list, map[], "", k);
      assert list[1..] == [];
      assert FirstProvider(list, k) == if k == MessageKey then Some(StrValue(text)) else None;
    }
  }

  /** The own message (with the bad-argument prefix when there are bad
      arguments) and the own extra map reach the result; the message wins
      over an extra "Message", and the bad-argument report overwrites only
      "Invalid error arguments" and "Message". */
  lemma OwnFieldsWin(p: Printer, kind: ErrorKind, args: seq<Value>, k: string)
    ensures var fields, c := GetFields(Some(Construct(p, kind, args))), Classify(args);
      && (Rejected(args) == [] && c.message != "" ==> MessageKey in fields && fields[MessageKey] == StrValue(c.message))
      && (Rejected(args) != [] ==> MessageKey in fields && fields[MessageKey] == StrValue(BadArgsPrefix + c.message))
      && (k in c.extra && !(k == MessageKey && c.message != "")
          && (Rejected(args) != [] ==> k != InvalidErrArgsKey && k != MessageKey)
          ==> k in fields && fields[k] == c.extra[k])
  {
    BadArgsInOrder(args);
    var n := BuildNode(p, kind, args);
    var kindName, list := NodeKind(Some(n)).name, WrappedFields(p, Some(n));
    MergePrecedence(kindName, list, n.extra, n.message, MessageKey);
    MergePrecedence(kindName, list, n.extra, n.message, k);
  }

  /** A field of a cause that holds fields is inherited unless the new
      error sets that key itself (its extra map, its message, or the
      bad-argument report) or the key is Kind or positional. */
  lemma InheritedFieldKept(p: Printer, kind: ErrorKind, args: seq<Value>, k: string)
    requires Classify(args).cause.Some?
    requires k in GetFields(Classify(args).cause)
    requires k !in Classify(args).extra && k != KindKey && k !in PositionalKeys
    requires Rejected(args) != [] ==> k != InvalidErrArgsKey && k != MessageKey
    requires k == MessageKey ==> Classify(args).message == ""
    ensures var fields := GetFields(Some(Construct(p, kind, args)));
      k in fields && fields[k] == GetFields(Classify(args).cause)[k]
  {
    BadArgsInOrder(args);
    var n := BuildNode(p, kind, args);
    assert k !in n.extra && (k == MessageKey ==> n.message == "");
    var inner := GetFields(n.wrappedErr);
    var kindName, list := NodeKind(Some(n)).name, WrappedFields(p, Some(n));
    assert list == [inner];
    assert FirstProvider(list, k) == Some(inner[k]);
    MergePrecedence(kindName, list, n.extra, n.message, k);
  }
}
