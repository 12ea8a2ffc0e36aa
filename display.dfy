/** How an error node displays itself: khanError.Error and StringifyField
    (errors/khan.go:47-101, 285-293). */
module Display {
  import opened Kinds
  import opened Chain
  import opened Resolution

  /** The renderings this package takes from elsewhere: the fmt verbs %v, %q
      and %#v, and the text of the chain library's own wrappers. They are
      parameters because their exact output is not part of this model. */
  datatype Printer = Printer(
    verbV: Value -> string,
    verbQ: Value -> string,
    verbSharpV: Value -> string,
    wrapperText: Error -> string)

  /** StringifyField: a []string is rendered with %q, anything else with %v. */
  function StringifyField(p: Printer, value: Value): (s: string)
    ensures value.StrsValue? ==> s == p.verbQ(value)
    ensures !value.StrsValue? ==> s == p.verbV(value)
  {
    match value
    case StrsValue(_) => p.verbQ(value)
    case _ => p.verbV(value)
  }

  // ---- Go's string order (sort.Strings) ----

  /** a < b on Go strings: lexicographic by byte. UTF-8 keeps code point
      order, so comparing characters gives the same order. */
  predicate Less(a: string, b: string)
    decreases |a|
  {
    if |a| == 0 then |b| > 0
    else if |b| == 0 then false
    else if a[0] != b[0] then a[0] < b[0]
    else Less(a[1..], b[1..])
  }

  lemma {:induction false} LessAsymmetric(a: string, b: string)
    ensures !(Less(a, b) && Less(b, a))
    decreases |a|
  {
    if |a| > 0 && |b| > 0 && a[0] == b[0] {
      LessAsymmetric(a[1..], b[1..]);
    }
  }

  lemma {:induction false} LessTransitive(a: string, b: string, c: string)
    requires Less(a, b) && Less(b, c)
    ensures Less(a, c)
    decreases |a|
  {
    if |a| > 0 && a[0] == b[0] && b[0] == c[0] {
      LessTransitive(a[1..], b[1..], c[1..]);
    }
  }

  lemma {:induction false} LessTotal(a: string, b: string)
    ensures a == b || Less(a, b) || Less(b, a)
    decreases |a|
  {
    if |a| > 0 && |b| > 0 && a[0] == b[0] {
      LessTotal(a[1..], b[1..]);
      if a[1..] == b[1..] {
        assert a == [a[0]] + a[1..] && b == [b[0]] + b[1..];
      }
    }
  }

  /** Strictly increasing in Go's string order. */
  predicate Ascending(keys: seq<string>)
  {
    forall i, j :: 0 <= i < j < |keys| ==> Less(keys[i], keys[j])
  }

  /** `m` is in `s` and below every other member of `s`. */
  predicate IsLeast(m: string, s: set<string>)
  {
    m in s && forall k :: k in s && k != m ==> Less(m, k)
  }

  lemma {:induction false} SmallestExists(s: set<string>)
    requires s != {}
    ensures exists m :: IsLeast(m, s)
    decreases s
  {
    var x :| x in s;
    if s == {x} {
      assert IsLeast(x, s);
    } else {
      SmallestExists(s - {x});
      var m :| IsLeast(m, s - {x});
      LessTotal(x, m);
      if Less(x, m) {
        forall k | k in s && k != x
          ensures Less(x, k)
        {
          if k != m { LessTransitive(x, m, k); }
        }
        assert IsLeast(x, s);
      } else {
        assert Less(m, x);
        assert IsLeast(m, s);
      }
    }
  }

  /** The least key of a non-empty set; unique because Less is asymmetric. */
  function SmallestKey(s: set<string>): (m: string)
    requires s != {}
    ensures m in s && forall k :: k in s && k != m ==> Less(m, k)
  {
    SmallestExists(s);
    LessIsAsymmetric();
    var m :| IsLeast(m, s);
    m
  }

  lemma LessIsAsymmetric()
    ensures forall a, b :: Less(a, b) ==> !Less(b, a)
  {
    forall a, b
      ensures Less(a, b) ==> !Less(b, a)
    {
      LessAsymmetric(a, b);
    }
  }

  /** The keys of a map in ascending order: what sorting the collected keys yields. */
  function SortedKeys(s: set<string>): (keys: seq<string>)
    ensures Ascending(keys)
    ensures forall k :: k in keys <==> k in s
    decreases s
  {
    if s == {} then []
    else
      var m := SmallestKey(s);
      [m] + SortedKeys(s - {m})
  }

  /** Two ascending sequences with the same elements are equal: sorting has
      only one possible outcome, whatever order the keys were collected in. */
  lemma {:induction false} AscendingUnique(a: seq<string>, b: seq<string>)
    requires Ascending(a) && Ascending(b)
    requires forall k :: k in a <==> k in b
    ensures a == b
    decreases |a|
  {
    if a == [] {
      if b != [] {
        HeadIsElement(b);
        assert false;
      }
    } else {
      assert a[0] in b;
      assert b != [];
      if a[0] != b[0] {
        assert b[0] in b;
        var i :| 0 <= i < |a| && a[i] == b[0];
        var j :| 0 <= j < |b| && b[j] == a[0];
        assert Less(a[0], a[i]) && Less(b[0], b[j]);
        LessAsymmetric(a[0], b[0]);
      }
      forall k
        ensures k in a[1..] <==> k in b[1..]
      {
        if k in a[1..] {
          var i :| 1 <= i < |a| && a[i] == k;
          assert Less(a[0], k);
          LessAsymmetric(a[0], k);
          assert k in b && k != b[0];
        }
        if k in b[1..] {
          var j :| 1 <= j < |b| && b[j] == k;
          assert Less(b[0], k);
          LessAsymmetric(b[0], k);
          assert k in a && k != a[0];
        }
      }
      AscendingUnique(a[1..], b[1..]);
      assert a == [a[0]] + a[1..] && b == [b[0]] + b[1..];
    }
  }

  lemma HeadIsElement(s: seq<string>)
    requires s != []
    ensures s[0] in s
  {
  }

  /** Inserting a new key into an ascending sequence keeps it ascending. */
  function InsertSorted(x: string, s: seq<string>): (r: seq<string>)
    requires Ascending(s) && x !in s
    ensures Ascending(r)
    ensures forall k :: k in r <==> k in s || k == x
  {
    if s == [] then [x]
    else if Less(x, s[0]) then
      forall k | k in s ensures Less(x, k) {
        if k != s[0] { LessTransitive(x, s[0], k); }
      }
      [x] + s
    else
      LessTotal(x, s[0]);
      var rest := InsertSorted(x, s[1..]);
      assert forall k :: k in rest ==> Less(s[0], k);
      [s[0]] + rest
  }

  /** sort.Strings over the distinct keys collected from a map, as an
      insertion sort. */
  method SortStrings(keys: seq<string>) returns (sorted: seq<string>)
    requires forall i, j :: 0 <= i < j < |keys| ==> keys[i] != keys[j]
    ensures Ascending(sorted)
    ensures forall k :: k in sorted <==> k in keys
  {
    sorted := [];
    for i := 0 to |keys|
      invariant Ascending(sorted)
      invariant forall k :: k in sorted <==> k in keys[..i]
    {
      assert keys[i] !in keys[..i];
      sorted := InsertSorted(keys[i], sorted);
      assert keys[..i + 1] == keys[..i] + [keys[i]];
    }
    assert keys[..|keys|] == keys;
  }

  // ---- The text of an error ----

  /** Keys the GraphQL panic handler sets, with empty values, so that they
      exist in the log schema; they are not shown when their value is empty. */
  const PanicKeys: set<string> :=
    {"handledGraphQLPanic", "panicErr.Kind", "panicErr.Message", "panicErr.Source", "panicValue"}

  /** Whether the field under `k` is left out of the display. */
  predicate Hidden(p: Printer, extra: Fields, k: string)
    requires k in extra
  {
    StringifyField(p, extra[k]) == "" && k in PanicKeys
  }

  /** One field as displayed: ", k = v", or nothing when hidden (or absent,
      which never happens for the keys of `extra`). */
  function FieldEntry(p: Printer, extra: Fields, k: string): string
  {
    if k !in extra || Hidden(p, extra, k) then "" else EntryText(k, StringifyField(p, extra[k]))
  }

  /** A shown field: ", " then the key, " = " and the rendered value. */
  function EntryText(k: string, v: string): string
  {
    ", " + k + " = " + v
  }

  /** The fields under `keys`, in that order. */
  function FieldsText(p: Printer, extra: Fields, keys: seq<string>): string
  {
    if keys == [] then ""
    else FieldsText(p, extra, keys[..|keys| - 1]) + FieldEntry(p, extra, keys[|keys| - 1])
  }

  /** err.Error() for any error: a bare kind shows its string, a foreign
      error its own text, a node as below, the library's wrappers their own
      rendering. */
  function ErrorText(p: Printer, e: Error): string
    decreases Depth(e), 2
  {
    match e
    case KindError(k) => ErrorOf(k)
    case Foreign(text, _) => text
    case Node(n) => NodeText(p, Some(n))
    case WithFields(_, _) => p.wrapperText(e)
    case Tagged(_, _) => p.wrapperText(e)
  }

  /** The text khanError.Error produces: nothing for a nil node; otherwise
      the head (cause, kind, message) then the visible fields in ascending
      key order. */
  function NodeText(p: Printer, e: Option<KhanError>): string
    decreases RefDepth(e), 1
  {
    match e
    case None => ""
    case Some(n) => CausePrefix(p, n.wrappedErr) + KindAndMessage(n) + FieldsText(p, n.extra, SortedKeys(n.extra.Keys))
  }

  /** The cause's text and a separator line, or nothing without a cause. */
  function CausePrefix(p: Printer, cause: Option<Error>): string
    decreases OptDepth(cause), 3
  {
    match cause
    case None => ""
    case Some(c) => ErrorText(p, c) + "\nWrapped by: "
  }

  /** The resolved kind, then the message after a space when there is one. */
  function KindAndMessage(n: KhanError): string
  {
    NodeKind(Some(n)).name + if n.message != "" then " " + n.message else ""
  }

  /** The distinct keys of `extra`, in the order the map happens to yield them. */
  method CollectKeys(extra: Fields) returns (keys: seq<string>)
    ensures forall k :: k in keys <==> k in extra
    ensures forall i, j :: 0 <= i < j < |keys| ==> keys[i] != keys[j]
  {
    keys := [];
    var unseen := extra.Keys;
    while unseen != {}
      invariant forall k :: k in extra <==> k in keys || k in unseen
      invariant forall k :: k in keys ==> k !in unseen
      invariant forall i, j :: 0 <= i < j < |keys| ==> keys[i] != keys[j]
      decreases unseen
    {
      var k :| k in unseen;
      keys := keys + [k];
      unseen := unseen - {k};
    }
  }

  /** Writes each visible field of `extra` under `keys`, in order, after `head`. */
  method WriteFields(p: Printer, extra: Fields, keys: seq<string>, head: string) returns (buf: string)
    requires forall k :: k in keys ==> k in extra
    ensures buf == head + FieldsText(p, extra, keys)
  {
    buf := head;
    for i := 0 to |keys|
      invariant buf == head + FieldsText(p, extra, keys[..i])
    {
      ghost var before := buf;
      var fieldValue := StringifyField(p, extra[keys[i]]);
      if !(fieldValue == "" && keys[i] in PanicKeys) {
        buf := buf + EntryText(keys[i], fieldValue);
      }
      assert buf == before + FieldEntry(p, extra, keys[i]);
      FieldsTextStep(p, extra, keys, i);
      Associative(head, FieldsText(p, extra, keys[..i]), FieldEntry(p, extra, keys[i]));
    }
    assert keys[..|keys|] == keys;
  }

  lemma FieldsTextStep(p: Printer, extra: Fields, keys: seq<string>, i: nat)
    requires i < |keys|
    ensures FieldsText(p, extra, keys[..i + 1]) == FieldsText(p, extra, keys[..i]) + FieldEntry(p, extra, keys[i])
  {
    assert keys[..i + 1][..i] == keys[..i];
  }

  /** khanError.Error, step by step: write the cause and the kind, collect
      the keys of `extra`, sort them, then write each visible field. */
  method NodeError(p: Printer, e: Option<KhanError>) returns (s: string)
    ensures s == NodeText(p, e)
    ensures e.None? ==> s == ""
  {
    if e.None? {
      return "";
    }
    var n := e.value;
    var prefix := "";
    if n.wrappedErr.Some? {
      prefix := ErrorText(p, n.wrappedErr.value) + "\nWrapped by: ";
    }
    var kindText := NodeKind(e).name;
    if n.message != "" {
      kindText := kindText + (" " + n.message);
    }
    assert prefix == CausePrefix(p, n.wrappedErr);
    assert kindText == KindAndMessage(n);
    var keys := CollectKeys(n.extra);
    keys := SortStrings(keys);
    AscendingUnique(keys, SortedKeys(n.extra.Keys));
    s := WriteFields(p, n.extra, keys, prefix + kindText);
  }

  // ---- What the display promises ----

  lemma Associative(a: string, b: string, c: string)
    ensures a + b + c == a + (b + c)
  {
  }

  lemma {:induction false} FieldsTextAppend(p: Printer, extra: Fields, a: seq<string>, b: seq<string>)
    ensures FieldsText(p, extra, a + b) == FieldsText(p, extra, a) + FieldsText(p, extra, b)
    decreases |b|
  {
    if b == [] {
      assert a + b == a;
    } else {
      var b', last := b[..|b| - 1], b[|b| - 1];
      assert (a + b)[..|a + b| - 1] == a + b' && (a + b)[|a + b| - 1] == last;
      assert FieldsText(p, extra, a + b) == FieldsText(p, extra, a + b') + FieldEntry(p, extra, last);
      assert FieldsText(p, extra, b) == FieldsText(p, extra, b') + FieldEntry(p, extra, last);
      FieldsTextAppend(p, extra, a, b');
      Associative(FieldsText(p, extra, a), FieldsText(p, extra, b'), FieldEntry(p, extra, last));
    }
  }

  /** The fields text splits around any one of its keys. */
  lemma FieldsTextSplit(p: Printer, extra: Fields, keys: seq<string>, i: nat)
    requires i < |keys|
    ensures FieldsText(p, extra, keys)
      == FieldsText(p, extra, keys[..i]) + FieldEntry(p, extra, keys[i]) + FieldsText(p, extra, keys[i + 1..])
  {
    assert keys == keys[..i + 1] + keys[i + 1..];
    FieldsTextAppend(p, extra, keys[..i + 1], keys[i + 1..]);
    assert keys[..i + 1][..i] == keys[..i];
  }

  /** With a cause, the text starts with the cause's own text and the
      separator line. */
  lemma CauseComesFirst(p: Printer, n: KhanError, c: Error)
    requires n.wrappedErr == Some(c)
    ensures var prefix := ErrorText(p, c) + "\nWrapped by: ";
      |prefix| <= |NodeText(p, Some(n))| && NodeText(p, Some(n))[..|prefix|] == prefix
  {
  }

  /** Every field that is not hidden appears as ", k = v" in the text. */
  lemma VisibleFieldShown(p: Printer, n: KhanError, k: string) returns (before: string, after: string)
    requires k in n.extra && !Hidden(p, n.extra, k)
    ensures NodeText(p, Some(n)) == before + EntryText(k, StringifyField(p, n.extra[k])) + after
  {
    var keys := SortedKeys(n.extra.Keys);
    var i :| 0 <= i < |keys| && keys[i] == k;
    FieldsTextSplit(p, n.extra, keys, i);
    var head := CausePrefix(p, n.wrappedErr) + KindAndMessage(n);
    var shown, entry := FieldsText(p, n.extra, keys[..i]), FieldEntry(p, n.extra, k);
    after := FieldsText(p, n.extra, keys[i + 1..]);
    before := head + shown;
    Associative(head, shown + entry, after);
    Associative(head, shown, entry);
  }

  /** Hidden fields contribute nothing: a node whose fields are all hidden
      displays exactly as the same node with no fields. */
  lemma HiddenFieldsAreOmitted(p: Printer, n: KhanError)
    requires forall k :: k in n.extra ==> Hidden(p, n.extra, k)
    ensures NodeText(p, Some(n)) == NodeText(p, Some(n.(extra := map[])))
  {
    var bare := n.(extra := map[]);
    AllHiddenIsEmpty(p, n.extra, SortedKeys(n.extra.Keys));
    assert SortedKeys(bare.extra.Keys) == [];
    SameHead(n, bare);
    var head := CausePrefix(p, n.wrappedErr) + KindAndMessage(n);
    assert NodeText(p, Some(n)) == head + "";
    assert NodeText(p, Some(bare)) == head + FieldsText(p, bare.extra, []);
  }

  lemma SameHead(n: KhanError, m: KhanError)
    requires n.kind == m.kind && n.wrappedErr == m.wrappedErr && n.message == m.message
    ensures KindAndMessage(n) == KindAndMessage(m)
  {
  }

  lemma {:induction false} AllHiddenIsEmpty(p: Printer, extra: Fields, keys: seq<string>)
    requires forall k :: k in keys ==> k !in extra || Hidden(p, extra, k)
    ensures FieldsText(p, extra, keys) == ""
    decreases |keys|
  {
    if keys != [] {
      AllHiddenIsEmpty(p, extra, keys[..|keys| - 1]);
    }
  }

  /** A node with a valid kind, a message and nothing else displays as the
      kind's string, a space and the message, with no field suffix. */
  lemma MessageOnlyText(p: Printer, kind: ErrorKind, message: string)
    requires IsValidKind(kind) && message != ""
    ensures NodeText(p, Some(KhanError(message, kind, None, map[]))) == kind.name + " " + message
  {
    var n := KhanError(message, kind, None, map[]);
    assert SortedKeys(n.extra.Keys) == [];
    assert CausePrefix(p, n.wrappedErr) == "";
    assert NodeText(p, Some(n)) == "" + KindAndMessage(n) + "";
  }
}
