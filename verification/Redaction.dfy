/**
 * Redaction of logged values: a bounded walk over an arbitrary object graph. Objects are
 * identities; a hook may hand out an identity never seen before, so a graph need not be
 * finite, let alone free of cycles.
 */
module Redaction {
  import opened Prelude
  import TextOrder

  type Id = nat

  const MAX_NESTING: nat := 64
  const MAX_HOOK_DEPTH: nat := 8
  const MARKER := "[REDACTED]"

  datatype Key = StrKey(name: string) | OtherKey(id: nat)

  datatype Field = Field(key: Key, item: Id)

  /** `Subclassed` is an instance of a subclass of list or tuple, `SetLike` a set or frozenset. */
  datatype Shape = ExactList | ExactTuple | Subclassed | SetLike

  datatype Hook = NoHook | HookRaises | HookReturns(result: Id)

  datatype Node =
    | Scalar(token: int)
    | Text(text: string)
    | Bytes(rendered: string)
    | Mapping(fields: seq<Field>)
    | Items(shape: Shape, items: seq<Id>)
    | WrappedDict(inner: Option<Id>)
    | Object(hook: Hook, representation: Option<string>)

  datatype Cutoff = CircularOrTooDeep | UnreadableWrapper | HookDepthExceeded | HookFailed

  datatype Entry = Entry(key: Key, value: Out)

  /** A redacted value: a finite tree. */
  datatype Out =
    | OutScalar(token: int)
    | OutText(text: string)
    | OutMapping(entries: seq<Entry>)
    | OutItems(shape: Shape, elements: seq<Out>)
    | Placeholder(cutoff: Cutoff, of: Id)

  /**
   * What the walk consults: the objects, the scrubbing of secrets from a text, the text of an
   * unrepresentable object, and `sortedMixed`: what `sorted` makes of elements that are not all
   * texts, which may be to refuse them.
   */
  datatype World = World(
    heap: Id -> Node,
    scrub: string -> string,
    unrepresentable: Id -> string,
    sortedMixed: seq<Out> -> Option<seq<Out>>)

  ghost predicate SortsFairly(w: World) {
    forall s: seq<Out> :: w.sortedMixed(s).Some? ==> multiset(w.sortedMixed(s).value) == multiset(s)
  }

  // ----- sensitive keys -----

  function Lower(c: char): char {
    if 'A' <= c <= 'Z' then c - 'A' + 'a' else c
  }

  function Lowered(s: string): (r: string)
    ensures |r| == |s|
  {
    seq(|s|, i requires 0 <= i < |s| => Lower(s[i]))
  }

  predicate Contains(s: string, part: string) {
    exists i :: 0 <= i <= |s| - |part| && part <= s[i..]
  }

  const SENSITIVE: set<string> := {"key", "token", "secret", "password", "authorization", "account"}

  predicate IsSensitiveKey(key: Key) {
    key.StrKey? && exists part <- SENSITIVE :: Contains(Lowered(key.name), part)
  }

  /** `word`, in small letters, stands in the name in letters of any case. */
  ghost predicate Stands(name: string, word: string) {
    exists i :: 0 <= i <= |name| - |word| && StandsAt(name, word, i)
  }

  ghost predicate StandsAt(name: string, word: string, i: nat)
    requires i + |word| <= |name|
  {
    forall k :: 0 <= k < |word| ==>
      name[i + k] == word[k] || ('a' <= word[k] <= 'z' && name[i + k] as int + 32 == word[k] as int)
  }

  /** What makes a key sensitive. */
  ghost predicate NamesSecret(key: Key) {
    && key.StrKey?
    && (Stands(key.name, "key") || Stands(key.name, "token") || Stands(key.name, "secret")
        || Stands(key.name, "password") || Stands(key.name, "authorization") || Stands(key.name, "account"))
  }

  lemma LoweredPart(name: string, word: string, i: nat)
    requires i + |word| <= |name| && forall k :: 0 <= k < |word| ==> 'a' <= word[k] <= 'z'
    ensures word <= Lowered(name)[i..] <==> StandsAt(name, word, i)
  {
    var rest := Lowered(name)[i..];
    if word <= rest {
      forall k | 0 <= k < |word|
        ensures name[i + k] == word[k] || ('a' <= word[k] <= 'z' && name[i + k] as int + 32 == word[k] as int)
      {
        assert rest[k] == word[k] && rest[k] == Lower(name[i + k]);
      }
    }
    if StandsAt(name, word, i) {
      forall k | 0 <= k < |word|
        ensures rest[k] == word[k]
      {
        assert rest[k] == Lower(name[i + k]);
      }
    }
  }

  lemma WordStands(name: string, word: string)
    requires forall k :: 0 <= k < |word| ==> 'a' <= word[k] <= 'z'
    ensures Contains(Lowered(name), word) <==> Stands(name, word)
  {
    if i :| 0 <= i <= |name| - |word| && word <= Lowered(name)[i..] {
      LoweredPart(name, word, i);
    }
    if i :| 0 <= i <= |name| - |word| && StandsAt(name, word, i) {
      LoweredPart(name, word, i);
      assert word <= Lowered(name)[i..];
    }
  }

  /** A key is sensitive exactly when one of six words, in letters of any case, stands anywhere in it. */
  lemma SensitiveExactly(key: Key)
    ensures IsSensitiveKey(key) <==> NamesSecret(key)
  {
    if key.StrKey? {
      WordStands(key.name, "key");
      WordStands(key.name, "token");
      WordStands(key.name, "secret");
      WordStands(key.name, "password");
      WordStands(key.name, "authorization");
      WordStands(key.name, "account");
    }
  }

  // ----- the walk -----

  /** A result and the depth of calls it took. */
  datatype Walk<T> = Walk(result: T, depth: nat)

  function Measure(hookDepth: nat, ancestors: set<Id>): nat
    requires hookDepth <= MAX_HOOK_DEPTH && |ancestors| <= MAX_NESTING
  {
    (MAX_NESTING - |ancestors|) + (MAX_HOOK_DEPTH - hookDepth)
  }

  predicate IsCycleOrTooDeep(v: Id, ancestors: set<Id>) {
    v in ancestors || |ancestors| >= MAX_NESTING
  }

  predicate AreTexts(outs: seq<Out>) {
    forall i :: 0 <= i < |outs| ==> outs[i].OutText?
  }

  function Texts(outs: seq<Out>): seq<string>
    requires AreTexts(outs)
  {
    seq(|outs|, i requires 0 <= i < |outs| => outs[i].text)
  }

  function OutTexts(texts: seq<string>): seq<Out> {
    seq(|texts|, i requires 0 <= i < |texts| => OutText(texts[i]))
  }

  /** `sorted`: texts are always ordered. */
  function Sorted(w: World, elements: seq<Out>): Option<seq<Out>> {
    if AreTexts(elements) then Some(OutTexts(TextOrder.Sorted(Texts(elements)))) else w.sortedMixed(elements)
  }

  function Rebuilt(w: World, shape: Shape, elements: seq<Out>): Out {
    if shape == ExactList || shape == ExactTuple then OutItems(shape, elements)
    else
      match Sorted(w, elements)
      case Some(ordered) => OutItems(ExactList, ordered)
      case None => OutItems(ExactTuple, elements)
  }

  /** The walk ends on every graph, at a call depth of at most 1 + 64 + 8. */
  function RedactValue(w: World, v: Id, hookDepth: nat, ancestors: set<Id>): (r: Walk<Out>)
    requires hookDepth <= MAX_HOOK_DEPTH && |ancestors| <= MAX_NESTING
    ensures 1 <= r.depth <= 1 + Measure(hookDepth, ancestors)
    decreases Measure(hookDepth, ancestors), 0
  {
    match w.heap(v)
    case Scalar(token) => Walk(OutScalar(token), 1)
    case Text(text) => Walk(OutText(w.scrub(text)), 1)
    case Bytes(rendered) => Walk(OutText(w.scrub(rendered)), 1)
    case Mapping(fields) =>
      if IsCycleOrTooDeep(v, ancestors) then Walk(Placeholder(CircularOrTooDeep, v), 1)
      else
        var r := RedactFields(w, fields, hookDepth, ancestors + {v});
        Walk(OutMapping(r.result), 1 + r.depth)
    case Items(shape, items) =>
      if IsCycleOrTooDeep(v, ancestors) then Walk(Placeholder(CircularOrTooDeep, v), 1)
      else
        var r := RedactItems(w, items, hookDepth, ancestors + {v});
        Walk(Rebuilt(w, shape, r.result), 1 + r.depth)
    case WrappedDict(inner) =>
      if IsCycleOrTooDeep(v, ancestors) then Walk(Placeholder(CircularOrTooDeep, v), 1)
      else if inner.None? then Walk(Placeholder(UnreadableWrapper, v), 1)
      else
        var r := RedactValue(w, inner.value, hookDepth, ancestors + {v});
        Walk(r.result, 1 + r.depth)
    case Object(hook, representation) =>
      if hookDepth >= MAX_HOOK_DEPTH then Walk(Placeholder(HookDepthExceeded, v), 1)
      else
        match hook
        case HookRaises => Walk(Placeholder(HookFailed, v), 1)
        case HookReturns(result) =>
          var r := RedactValue(w, result, hookDepth + 1, ancestors);
          Walk(r.result, 1 + r.depth)
        case NoHook =>
          Walk(OutText(w.scrub(if representation.Some? then representation.value else w.unrepresentable(v))), 1)
  }

  function Max(x: nat, y: nat): nat {
    if x < y then y else x
  }

  function RedactFields(w: World, fields: seq<Field>, hookDepth: nat, ancestors: set<Id>): (r: Walk<seq<Entry>>)
    requires hookDepth <= MAX_HOOK_DEPTH && |ancestors| <= MAX_NESTING
    ensures |r.result| == |fields| && r.depth <= 1 + Measure(hookDepth, ancestors)
    decreases Measure(hookDepth, ancestors), |fields| + 1
  {
    if fields == [] then Walk([], 0)
    else
      var first := if IsSensitiveKey(fields[0].key) then Walk(OutText(MARKER), 0)
                   else RedactValue(w, fields[0].item, hookDepth, ancestors);
      var rest := RedactFields(w, fields[1..], hookDepth, ancestors);
      Walk([Entry(fields[0].key, first.result)] + rest.result, Max(first.depth, rest.depth))
  }

  function RedactItems(w: World, items: seq<Id>, hookDepth: nat, ancestors: set<Id>): (r: Walk<seq<Out>>)
    requires hookDepth <= MAX_HOOK_DEPTH && |ancestors| <= MAX_NESTING
    ensures |r.result| == |items| && r.depth <= 1 + Measure(hookDepth, ancestors)
    decreases Measure(hookDepth, ancestors), |items| + 1
  {
    if items == [] then Walk([], 0)
    else
      var first := RedactValue(w, items[0], hookDepth, ancestors);
      var rest := RedactItems(w, items[1..], hookDepth, ancestors);
      Walk([first.result] + rest.result, Max(first.depth, rest.depth))
  }

  /** The call a log record makes for each of its fields. */
  function Redact(w: World, v: Id): (r: Walk<Out>)
    ensures r.depth <= 1 + 64 + 8
  {
    RedactValue(w, v, 0, {})
  }

  // ----- no sensitive field survives, at any depth -----

  /** Every text of the tree is scrubbed, and in its mappings a sensitive key holds the marker and nothing else. */
  ghost predicate IsClean(w: World, out: Out)
    decreases out, 0
  {
    match out
    case OutMapping(entries) => AreCleanEntries(w, entries)
    case OutItems(_, elements) => AreClean(w, elements)
    case OutText(text) => text == "[REDACTED]" || exists raw: string :: w.scrub(raw) == text
    case _ => true
  }

  ghost predicate AreClean(w: World, outs: seq<Out>)
    decreases outs
  {
    outs == [] || (IsClean(w, outs[0]) && AreClean(w, outs[1..]))
  }

  ghost predicate IsCleanEntry(w: World, entry: Entry)
    decreases entry
  {
    IsClean(w, entry.value) && (NamesSecret(entry.key) ==> entry.value == OutText("[REDACTED]"))
  }

  ghost predicate AreCleanEntries(w: World, entries: seq<Entry>)
    decreases entries
  {
    entries == [] || (IsCleanEntry(w, entries[0]) && AreCleanEntries(w, entries[1..]))
  }

  lemma {:induction false} ElementIsClean(w: World, outs: seq<Out>, i: nat)
    requires AreClean(w, outs) && i < |outs|
    ensures IsClean(w, outs[i])
  {
    if i > 0 {
      ElementIsClean(w, outs[1..], i - 1);
    }
  }

  lemma {:induction false} DrawnAreClean(w: World, outs: seq<Out>, drawn: seq<Out>)
    requires AreClean(w, outs) && forall out <- drawn :: out in outs
    ensures AreClean(w, drawn)
  {
    if drawn != [] {
      assert drawn[0] in outs;
      var i :| 0 <= i < |outs| && outs[i] == drawn[0];
      ElementIsClean(w, outs, i);
      DrawnAreClean(w, outs, drawn[1..]);
    }
  }

  lemma {:induction false} TextTimes(texts: seq<string>, out: Out)
    ensures multiset(OutTexts(texts))[out] == if out.OutText? then multiset(texts)[out.text] else 0
  {
    if texts != [] {
      var init, last := texts[..|texts| - 1], texts[|texts| - 1];
      TextTimes(init, out);
      assert texts == init + [last] && OutTexts(texts) == OutTexts(init) + [OutText(last)];
    }
  }

  lemma TextsRoundTrip(elements: seq<Out>)
    requires AreTexts(elements)
    ensures OutTexts(Texts(elements)) == elements
  {}

  lemma OutTextsRoundTrip(texts: seq<string>)
    ensures AreTexts(OutTexts(texts)) && Texts(OutTexts(texts)) == texts
  {}

  lemma TextsArePermuted(elements: seq<Out>)
    requires AreTexts(elements)
    ensures multiset(OutTexts(TextOrder.Sorted(Texts(elements)))) == multiset(elements)
  {
    var texts := Texts(elements);
    TextOrder.SortedIsOrderedPermutation(texts);
    TextsRoundTrip(elements);
    forall out
      ensures multiset(OutTexts(TextOrder.Sorted(texts)))[out] == multiset(elements)[out]
    {
      TextTimes(texts, out);
      TextTimes(TextOrder.Sorted(texts), out);
    }
  }

  /** Sorting keeps the elements, each as often as before. */
  lemma SortedIsPermutation(w: World, elements: seq<Out>)
    requires SortsFairly(w) && Sorted(w, elements).Some?
    ensures multiset(Sorted(w, elements).value) == multiset(elements)
  {
    if AreTexts(elements) {
      TextsArePermuted(elements);
    }
  }

  lemma RebuiltIsClean(w: World, shape: Shape, elements: seq<Out>)
    requires SortsFairly(w) && AreClean(w, elements)
    ensures IsClean(w, Rebuilt(w, shape, elements))
  {
    if shape != ExactList && shape != ExactTuple && Sorted(w, elements).Some? {
      var ordered := Sorted(w, elements).value;
      SortedIsPermutation(w, elements);
      forall out <- ordered
        ensures out in elements
      {
        assert out in multiset(ordered) && out in multiset(elements);
      }
      DrawnAreClean(w, elements, ordered);
    }
  }

  lemma {:induction false} RedactedIsClean(w: World, v: Id, hookDepth: nat, ancestors: set<Id>)
    requires SortsFairly(w)
    requires hookDepth <= MAX_HOOK_DEPTH && |ancestors| <= MAX_NESTING
    ensures IsClean(w, RedactValue(w, v, hookDepth, ancestors).result)
    decreases Measure(hookDepth, ancestors), 0
  {
    var node := w.heap(v);
    if node.Object? {
      if hookDepth < MAX_HOOK_DEPTH && node.hook.HookReturns? {
        RedactedIsClean(w, node.hook.result, hookDepth + 1, ancestors);
      }
    } else if !IsCycleOrTooDeep(v, ancestors) {
      var inner := ancestors + {v};
      if node.Mapping? {
        FieldsAreClean(w, node.fields, hookDepth, inner);
      } else if node.Items? {
        ItemsAreClean(w, node.items, hookDepth, inner);
        RebuiltIsClean(w, node.shape, RedactItems(w, node.items, hookDepth, inner).result);
      } else if node.WrappedDict? && node.inner.Some? {
        RedactedIsClean(w, node.inner.value, hookDepth, inner);
      }
    }
  }

  lemma {:induction false} FieldsAreClean(w: World, fields: seq<Field>, hookDepth: nat, ancestors: set<Id>)
    requires SortsFairly(w)
    requires hookDepth <= MAX_HOOK_DEPTH && |ancestors| <= MAX_NESTING
    ensures AreCleanEntries(w, RedactFields(w, fields, hookDepth, ancestors).result)
    decreases Measure(hookDepth, ancestors), |fields| + 1
  {
    if fields != [] {
      SensitiveExactly(fields[0].key);
      RedactedIsClean(w, fields[0].item, hookDepth, ancestors);
      FieldsAreClean(w, fields[1..], hookDepth, ancestors);
      var entries := RedactFields(w, fields, hookDepth, ancestors).result;
      assert entries[1..] == RedactFields(w, fields[1..], hookDepth, ancestors).result;
    }
  }

  lemma {:induction false} ItemsAreClean(w: World, items: seq<Id>, hookDepth: nat, ancestors: set<Id>)
    requires SortsFairly(w)
    requires hookDepth <= MAX_HOOK_DEPTH && |ancestors| <= MAX_NESTING
    ensures AreClean(w, RedactItems(w, items, hookDepth, ancestors).result)
    decreases Measure(hookDepth, ancestors), |items| + 1
  {
    if items != [] {
      RedactedIsClean(w, items[0], hookDepth, ancestors);
      ItemsAreClean(w, items[1..], hookDepth, ancestors);
      var outs := RedactItems(w, items, hookDepth, ancestors).result;
      assert outs[1..] == RedactItems(w, items[1..], hookDepth, ancestors).result;
    }
  }

  // ----- sequences that are not plain lists or tuples -----

  /**
   * A sequence of texts that is not a plain list or tuple comes out as a list of its members
   * in order, never as a tuple; it keeps its own order exactly when it was ordered already.
   */
  lemma TextsAreReordered(w: World, shape: Shape, elements: seq<Out>)
    requires (shape == Subclassed || shape == SetLike) && AreTexts(elements)
    ensures var out := Rebuilt(w, shape, elements);
            && out.OutItems? && out.shape == ExactList && AreTexts(out.elements)
            && TextOrder.IsOrdered(Texts(out.elements))
            && multiset(out.elements) == multiset(elements)
            && (out.elements == elements <==> TextOrder.IsOrdered(Texts(elements)))
  {
    var texts := Texts(elements);
    var sorted := TextOrder.Sorted(texts);
    TextOrder.SortedIsOrderedPermutation(texts);
    TextsArePermuted(elements);
    OutTextsRoundTrip(sorted);
    SameTexts(elements, sorted);
    TextOrder.SortingKeepsOrderExactly(texts);
  }

  lemma SameTexts(elements: seq<Out>, texts: seq<string>)
    requires AreTexts(elements)
    ensures OutTexts(texts) == elements <==> texts == Texts(elements)
  {
    TextsRoundTrip(elements);
    OutTextsRoundTrip(texts);
  }

  /** A two-field named tuple of texts loses its kind always, and its field order exactly when the second text sorts first. */
  lemma NamedPairIsSorted(w: World, v: Id, first: Id, second: Id, hookDepth: nat, ancestors: set<Id>)
    requires hookDepth <= MAX_HOOK_DEPTH && v !in ancestors && |ancestors| < 64
    requires w.heap(v) == Items(Subclassed, [first, second]) && w.heap(first).Text? && w.heap(second).Text?
    ensures var a, b := w.scrub(w.heap(first).text), w.scrub(w.heap(second).text);
            RedactValue(w, v, hookDepth, ancestors).result
            == OutItems(ExactList, if TextOrder.Precedes(a, b) then [OutText(a), OutText(b)] else [OutText(b), OutText(a)])
  {
    var a, b := w.scrub(w.heap(first).text), w.scrub(w.heap(second).text);
    PairItems(w, first, second, hookDepth, ancestors + {v});
    RebuiltPair(w, a, b);
  }

  lemma RebuiltPair(w: World, a: string, b: string)
    ensures Rebuilt(w, Subclassed, [OutText(a), OutText(b)])
         == OutItems(ExactList, if TextOrder.Precedes(a, b) then [OutText(a), OutText(b)] else [OutText(b), OutText(a)])
  {
    var elements := [OutText(a), OutText(b)];
    assert AreTexts(elements) && Texts(elements) == [a, b];
    SortedPair(a, b);
    assert OutTexts([a, b]) == elements && OutTexts([b, a]) == [OutText(b), OutText(a)];
  }

  lemma PairItems(w: World, first: Id, second: Id, hookDepth: nat, ancestors: set<Id>)
    requires hookDepth <= MAX_HOOK_DEPTH && |ancestors| <= MAX_NESTING
    ensures RedactItems(w, [first, second], hookDepth, ancestors).result
         == [RedactValue(w, first, hookDepth, ancestors).result, RedactValue(w, second, hookDepth, ancestors).result]
  {
    assert [second][1..] == [] && [first, second][1..] == [second];
    var rest := RedactItems(w, [second], hookDepth, ancestors).result;
    assert rest == [RedactValue(w, second, hookDepth, ancestors).result];
  }

  lemma SortedPair(a: string, b: string)
    ensures TextOrder.Sorted([a, b]) == if TextOrder.Precedes(a, b) then [a, b] else [b, a]
  {
    assert [a, b][..1] == [a] && [a][..0] == [];
    assert TextOrder.Sorted([a]) == [a];
    assert TextOrder.Insert([], b) == [b];
  }

  // ----- the event dictionary of a log record -----

  /** The value of an event field: raw, or already redacted. */
  datatype Slot = Raw(v: Id) | Done(out: Out)

  const META_KEYS: set<string> := {"_record", "_from_structlog"}

  function RedactedField(w: World, key: string, v: Id): Slot {
    if key in META_KEYS then Raw(v)
    else if IsSensitiveKey(StrKey(key)) then Done(OutText(MARKER))
    else Done(Redact(w, v).result)
  }

  class EventDict {
    var slots: map<string, Slot>

    constructor (slots: map<string, Slot>)
      ensures this.slots == slots
    {
      this.slots := slots;
    }

    /** Redacts every field in place, leaving the bookkeeping ones. */
    method RedactAll(w: World)
      requires forall key <- slots :: slots[key].Raw?
      modifies this
      ensures slots.Keys == old(slots.Keys)
      ensures forall key <- slots :: slots[key] == RedactedField(w, key, old(slots)[key].v)
    {
      var left := slots.Keys;
      while left != {}
        invariant left <= slots.Keys == old(slots.Keys)
        invariant forall key <- left :: slots[key] == old(slots)[key]
        invariant forall key <- slots.Keys - left :: slots[key] == RedactedField(w, key, old(slots)[key].v)
        decreases left
      {
        var key :| key in left;
        left := left - {key};
        if key !in META_KEYS {
          if IsSensitiveKey(StrKey(key)) {
            slots := slots[key := Done(OutText(MARKER))];
          } else {
            var r := Redact(w, slots[key].v);
            slots := slots[key := Done(r.result)];
          }
        }
      }
    }
  }

  /**
   * The bookkeeping fields stay as they are. Every other field ends clean, a sensitive one as
   * the marker, and one that is not as its own redaction.
   */
  lemma FieldIsClean(w: World, key: string, v: Id)
    requires SortsFairly(w)
    ensures
      var slot := RedactedField(w, key, v);
      if key == "_record" || key == "_from_structlog" then slot == Raw(v)
      else
        && slot.Done? && IsClean(w, slot.out)
        && slot.out == if NamesSecret(StrKey(key)) then OutText("[REDACTED]") else RedactValue(w, v, 0, {}).result
  {
    SensitiveExactly(StrKey(key));
    RedactedIsClean(w, v, 0, {});
  }

  // ----- what becomes of each kind of object -----

  lemma {:induction false} ItemAt(w: World, items: seq<Id>, hookDepth: nat, ancestors: set<Id>, i: nat)
    requires hookDepth <= 8 && |ancestors| <= 64 && i < |items|
    ensures RedactItems(w, items, hookDepth, ancestors).result[i]
         == RedactValue(w, items[i], hookDepth, ancestors).result
  {
    if i > 0 {
      ItemAt(w, items[1..], hookDepth, ancestors, i - 1);
    }
  }

  /**
   * A plain list or tuple keeps its kind and its members, each redacted in place. Of any other
   * sequence texts come out as an ordered list, and what cannot be sorted as a tuple.
   */
  lemma ItemsExactly(w: World, v: Id, hookDepth: nat, ancestors: set<Id>, elements: seq<Out>)
    requires w.heap(v).Items? && hookDepth <= 8 && v !in ancestors && |ancestors| < 64
    requires |elements| == |w.heap(v).items|
    requires forall i :: 0 <= i < |elements| ==>
               elements[i] == RedactValue(w, w.heap(v).items[i], hookDepth, ancestors + {v}).result
    ensures
      var shape, out := w.heap(v).shape, RedactValue(w, v, hookDepth, ancestors).result;
      if shape == ExactList || shape == ExactTuple then out == OutItems(shape, elements)
      else if forall i :: 0 <= i < |elements| ==> elements[i].OutText? then
        && out.OutItems? && out.shape == ExactList && multiset(out.elements) == multiset(elements)
        && (forall i :: 0 <= i < |out.elements| ==> out.elements[i].OutText?)
        && forall i :: 0 < i < |out.elements| ==> TextOrder.Precedes(out.elements[i - 1].text, out.elements[i].text)
      else
        match w.sortedMixed(elements)
        case Some(ordered) => out == OutItems(ExactList, ordered)
        case None => out == OutItems(ExactTuple, elements)
  {
    var items, shape := w.heap(v).items, w.heap(v).shape;
    var walked := RedactItems(w, items, hookDepth, ancestors + {v}).result;
    forall i | 0 <= i < |items|
      ensures walked[i] == elements[i]
    {
      ItemAt(w, items, hookDepth, ancestors + {v}, i);
    }
    assert walked == elements;
    if shape != ExactList && shape != ExactTuple && AreTexts(elements) {
      TextsAreReordered(w, shape, elements);
      var out := Rebuilt(w, shape, elements);
      assert forall i :: 0 <= i < |out.elements| ==> Texts(out.elements)[i] == out.elements[i].text;
    }
  }

  lemma {:induction false} FieldAt(w: World, fields: seq<Field>, hookDepth: nat, ancestors: set<Id>, i: nat)
    requires hookDepth <= 8 && |ancestors| <= 64 && i < |fields|
    ensures
      var entry := RedactFields(w, fields, hookDepth, ancestors).result[i];
      && entry.key == fields[i].key
      && entry.value == if NamesSecret(fields[i].key) then OutText("[REDACTED]")
                        else RedactValue(w, fields[i].item, hookDepth, ancestors).result
  {
    if i > 0 {
      FieldAt(w, fields[1..], hookDepth, ancestors, i - 1);
    } else {
      SensitiveExactly(fields[0].key);
    }
  }

  /** A mapping keeps its keys in order, each with its value redacted or the marker. */
  lemma MappingExactly(w: World, v: Id, hookDepth: nat, ancestors: set<Id>, i: nat)
    requires w.heap(v).Mapping? && hookDepth <= 8 && v !in ancestors && |ancestors| < 64
    requires i < |w.heap(v).fields|
    ensures
      var field, out := w.heap(v).fields[i], RedactValue(w, v, hookDepth, ancestors).result;
      && out.OutMapping? && |out.entries| == |w.heap(v).fields| && out.entries[i].key == field.key
      && out.entries[i].value == if NamesSecret(field.key) then OutText("[REDACTED]")
                                 else RedactValue(w, field.item, hookDepth, ancestors + {v}).result
  {
    FieldAt(w, w.heap(v).fields, hookDepth, ancestors + {v}, i);
  }

  /**
   * What is cut off: a container met inside itself or below 64 others, a hook below eight
   * others, one that raises, and a wrapper that cannot be read.
   */
  lemma CutOffExactly(w: World, v: Id, hookDepth: nat, ancestors: set<Id>)
    requires hookDepth <= 8 && |ancestors| <= 64
    ensures
      var node, out := w.heap(v), RedactValue(w, v, hookDepth, ancestors).result;
      var container := node.Mapping? || node.Items? || node.WrappedDict?;
      && (container && (v in ancestors || |ancestors| == 64) ==> out == Placeholder(CircularOrTooDeep, v))
      && (node == WrappedDict(None) && v !in ancestors && |ancestors| < 64 ==> out == Placeholder(UnreadableWrapper, v))
      && (node.Object? && hookDepth == 8 ==> out == Placeholder(HookDepthExceeded, v))
      && (node.Object? && hookDepth < 8 && node.hook.HookRaises? ==> out == Placeholder(HookFailed, v))
  {}

  // ----- the bound on the call depth is attained -----

  lemma {:induction false} SelfReturningHook(w: World, v: Id, hookDepth: nat, ancestors: set<Id>)
    requires w.heap(v) == Object(HookReturns(v), None)
    requires hookDepth <= MAX_HOOK_DEPTH && |ancestors| <= MAX_NESTING
    ensures RedactValue(w, v, hookDepth, ancestors).depth == 1 + 8 - hookDepth
    decreases MAX_HOOK_DEPTH - hookDepth
  {
    if hookDepth < MAX_HOOK_DEPTH {
      SelfReturningHook(w, v, hookDepth + 1, ancestors);
    }
  }

  /** 64 lists, each holding the next, around an object whose hook returns itself. */
  ghost predicate IsDeepChain(w: World) {
    && (forall v: Id :: v < 64 ==> w.heap(v) == Items(ExactList, [v + 1]))
    && w.heap(64) == Object(HookReturns(64), None)
  }

  lemma {:induction false} ChainDepth(w: World, v: Id, ancestors: set<Id>)
    requires IsDeepChain(w) && v <= 64 && |ancestors| == v && forall a <- ancestors :: a < v
    ensures RedactValue(w, v, 0, ancestors).depth == 1 + 64 + 8 - v
    decreases 64 - v
  {
    if v == 64 {
      SelfReturningHook(w, v, 0, ancestors);
    } else {
      var inner := ancestors + {v};
      ChainDepth(w, v + 1, inner);
      var one := RedactItems(w, [v + 1], 0, inner);
      assert [v + 1][1..] == [];
      assert one.depth == RedactValue(w, v + 1, 0, inner).depth;
    }
  }

  lemma DepthBoundIsReached(w: World)
    requires IsDeepChain(w)
    ensures Redact(w, 0).depth == 1 + 64 + 8
  {
    ChainDepth(w, 0, {});
  }

  // ----- within the limits nothing is cut off -----

  /** Ranks of objects: how many containers, and how many hooks, may still lie below. */
  datatype Ranks = Ranks(nesting: Id -> nat, hooks: Id -> nat)

  ghost predicate Below(ranks: Ranks, child: Id, container: Id) {
    ranks.nesting(child) < ranks.nesting(container) && ranks.hooks(child) <= ranks.hooks(container)
  }

  ghost predicate IsRanked(w: World, objects: iset<Id>, ranks: Ranks, v: Id) {
    match w.heap(v)
    case Mapping(fields) =>
      && ranks.nesting(v) >= 1
      && forall field <- fields :: !NamesSecret(field.key) ==> field.item in objects && Below(ranks, field.item, v)
    case Items(_, items) =>
      ranks.nesting(v) >= 1 && forall item <- items :: item in objects && Below(ranks, item, v)
    case WrappedDict(inner) =>
      ranks.nesting(v) >= 1 && (inner.Some? ==> inner.value in objects && Below(ranks, inner.value, v))
    case Object(hook, _) =>
      && ranks.hooks(v) >= 1
      && (hook.HookReturns? ==>
            && hook.result in objects
            && ranks.nesting(hook.result) <= ranks.nesting(v)
            && ranks.hooks(hook.result) < ranks.hooks(v))
    case _ => true
  }

  /** `objects` is closed under what redaction follows, and the ranks witness that it is well-founded. */
  ghost predicate AreRanked(w: World, objects: iset<Id>, ranks: Ranks) {
    forall v <- objects :: IsRanked(w, objects, ranks, v)
  }

  /** Plain lists and tuples are kept; other sequences become sorted lists, or tuples where they cannot be sorted. */
  ghost function UnboundedSequence(w: World, shape: Shape, elements: seq<Out>): Out {
    if shape in {ExactList, ExactTuple} then OutItems(shape, elements)
    else if forall i :: 0 <= i < |elements| ==> elements[i].OutText? then
      var texts := seq(|elements|, i requires 0 <= i < |elements| => elements[i].text);
      var sorted := TextOrder.Sorted(texts);
      OutItems(ExactList, seq(|sorted|, i requires 0 <= i < |sorted| => OutText(sorted[i])))
    else if w.sortedMixed(elements).Some? then OutItems(ExactList, w.sortedMixed(elements).value)
    else OutItems(ExactTuple, elements)
  }

  lemma SequenceIsUnbounded(w: World, shape: Shape, elements: seq<Out>)
    ensures Rebuilt(w, shape, elements) == UnboundedSequence(w, shape, elements)
  {
    if AreTexts(elements) {
      var texts := seq(|elements|, i requires 0 <= i < |elements| => elements[i].text);
      assert texts == Texts(elements);
      var sorted := TextOrder.Sorted(texts);
      assert OutTexts(sorted) == seq(|sorted|, i requires 0 <= i < |sorted| => OutText(sorted[i]));
    }
  }

  /** Redaction as one would write it for finite trees: no cycle check, no limits. */
  ghost function Unbounded(w: World, objects: iset<Id>, ranks: Ranks, v: Id): Out
    requires AreRanked(w, objects, ranks) && v in objects
    decreases ranks.nesting(v) + ranks.hooks(v), 1, 0
  {
    assert IsRanked(w, objects, ranks, v);
    match w.heap(v)
    case Scalar(token) => OutScalar(token)
    case Text(text) => OutText(w.scrub(text))
    case Bytes(rendered) => OutText(w.scrub(rendered))
    case Mapping(fields) => OutMapping(UnboundedFields(w, objects, ranks, v, fields))
    case Items(shape, items) => UnboundedSequence(w, shape, UnboundedItems(w, objects, ranks, v, items))
    case WrappedDict(None) => Placeholder(UnreadableWrapper, v)
    case WrappedDict(Some(inner)) => Unbounded(w, objects, ranks, inner)
    case Object(HookRaises, _) => Placeholder(HookFailed, v)
    case Object(HookReturns(result), _) => Unbounded(w, objects, ranks, result)
    case Object(NoHook, Some(representation)) => OutText(w.scrub(representation))
    case Object(NoHook, None) => OutText(w.scrub(w.unrepresentable(v)))
  }

  ghost function UnboundedFields(w: World, objects: iset<Id>, ranks: Ranks, v: Id, fields: seq<Field>): seq<Entry>
    requires AreRanked(w, objects, ranks)
    requires forall field <- fields :: !NamesSecret(field.key) ==> field.item in objects && Below(ranks, field.item, v)
    decreases ranks.nesting(v) + ranks.hooks(v), 0, |fields|
  {
    if fields == [] then []
    else
      assert fields[0] in fields;
      assert !NamesSecret(fields[0].key) ==> Below(ranks, fields[0].item, v);
      var value := if NamesSecret(fields[0].key) then OutText("[REDACTED]")
                   else Unbounded(w, objects, ranks, fields[0].item);
      [Entry(fields[0].key, value)] + UnboundedFields(w, objects, ranks, v, fields[1..])
  }

  ghost function UnboundedItems(w: World, objects: iset<Id>, ranks: Ranks, v: Id, items: seq<Id>): seq<Out>
    requires AreRanked(w, objects, ranks)
    requires forall item <- items :: item in objects && Below(ranks, item, v)
    decreases ranks.nesting(v) + ranks.hooks(v), 0, |items|
  {
    if items == [] then []
    else
      assert items[0] in items;
      assert Below(ranks, items[0], v);
      [Unbounded(w, objects, ranks, items[0])] + UnboundedItems(w, objects, ranks, v, items[1..])
  }

  /** Every container being redacted lies above `v`, and the limits leave room for what is below it. */
  ghost predicate HasRoom(ranks: Ranks, v: Id, hookDepth: nat, ancestors: set<Id>) {
    && |ancestors| + ranks.nesting(v) <= 64
    && hookDepth + ranks.hooks(v) <= 8
    && forall a <- ancestors :: ranks.nesting(a) > ranks.nesting(v)
  }

  lemma RoomInside(ranks: Ranks, v: Id, child: Id, hookDepth: nat, ancestors: set<Id>)
    requires HasRoom(ranks, v, hookDepth, ancestors) && Below(ranks, child, v)
    ensures HasRoom(ranks, child, hookDepth, ancestors + {v})
  {
    assert v !in ancestors;
  }

  /** Within the limits, the bounded walk gives what the unbounded one would. */
  lemma {:induction false} RedactionIsUnbounded(
    w: World, objects: iset<Id>, ranks: Ranks, v: Id, hookDepth: nat, ancestors: set<Id>)
    requires AreRanked(w, objects, ranks) && v in objects && HasRoom(ranks, v, hookDepth, ancestors)
    ensures RedactValue(w, v, hookDepth, ancestors).result == Unbounded(w, objects, ranks, v)
    decreases ranks.nesting(v) + ranks.hooks(v), 1, 0
  {
    assert IsRanked(w, objects, ranks, v);
    assert v !in ancestors;
    match w.heap(v)
    case Mapping(fields) => FieldsAreUnbounded(w, objects, ranks, v, fields, hookDepth, ancestors);
    case Items(shape, items) =>
      ItemsAreUnbounded(w, objects, ranks, v, items, hookDepth, ancestors);
      SequenceIsUnbounded(w, shape, UnboundedItems(w, objects, ranks, v, items));
    case WrappedDict(Some(inner)) =>
      RoomInside(ranks, v, inner, hookDepth, ancestors);
      RedactionIsUnbounded(w, objects, ranks, inner, hookDepth, ancestors + {v});
    case Object(HookReturns(result), _) =>
      RedactionIsUnbounded(w, objects, ranks, result, hookDepth + 1, ancestors);
    case _ =>
  }

  lemma {:induction false} FieldsAreUnbounded(
    w: World, objects: iset<Id>, ranks: Ranks, v: Id, fields: seq<Field>, hookDepth: nat, ancestors: set<Id>)
    requires AreRanked(w, objects, ranks) && HasRoom(ranks, v, hookDepth, ancestors) && ranks.nesting(v) >= 1
    requires forall field <- fields :: !NamesSecret(field.key) ==> field.item in objects && Below(ranks, field.item, v)
    ensures v !in ancestors
    ensures RedactFields(w, fields, hookDepth, ancestors + {v}).result
         == UnboundedFields(w, objects, ranks, v, fields)
    decreases ranks.nesting(v) + ranks.hooks(v), 0, |fields|
  {
    assert v !in ancestors;
    if fields != [] {
      var field := fields[0];
      assert field in fields;
      SensitiveExactly(field.key);
      if !NamesSecret(field.key) {
        RoomInside(ranks, v, field.item, hookDepth, ancestors);
        RedactionIsUnbounded(w, objects, ranks, field.item, hookDepth, ancestors + {v});
      }
      FieldsAreUnbounded(w, objects, ranks, v, fields[1..], hookDepth, ancestors);
    }
  }

  lemma {:induction false} ItemsAreUnbounded(
    w: World, objects: iset<Id>, ranks: Ranks, v: Id, items: seq<Id>, hookDepth: nat, ancestors: set<Id>)
    requires AreRanked(w, objects, ranks) && HasRoom(ranks, v, hookDepth, ancestors) && ranks.nesting(v) >= 1
    requires forall item <- items :: item in objects && Below(ranks, item, v)
    ensures v !in ancestors
    ensures RedactItems(w, items, hookDepth, ancestors + {v}).result == UnboundedItems(w, objects, ranks, v, items)
    decreases ranks.nesting(v) + ranks.hooks(v), 0, |items|
  {
    assert v !in ancestors;
    if items != [] {
      assert items[0] in items;
      RoomInside(ranks, v, items[0], hookDepth, ancestors);
      RedactionIsUnbounded(w, objects, ranks, items[0], hookDepth, ancestors + {v});
      ItemsAreUnbounded(w, objects, ranks, v, items[1..], hookDepth, ancestors);
    }
  }
}
