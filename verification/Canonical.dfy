/**
 * Structural canonicalisation of configuration data before hashing. The hash is taken over
 * JSON text with sorted keys, so two configurations hash the same text exactly when their
 * canonical copies are the same JSON value.
 */
module Canonical {
  import opened Prelude
  import opened DecimalNotation

  datatype Key = StrKey(name: string) | OtherKey

  datatype Entry = Entry(key: Key, value: Value)

  /** Python data. `Float` stands for a finite float by its bit pattern; `Other` is any unlisted type. */
  datatype Value =
    | Null
    | Str(text: string)
    | Bool(flag: bool)
    | Int(number: int)
    | Float(bits: nat)
    | NonFiniteFloat
    | Dec(decimal: Number)
    | NonFiniteDecimal
    | List(items: seq<Value>)
    | Tuple(items: seq<Value>)
    | Dict(entries: seq<Entry>)
    | Other

  datatype ConfigHashError = NotFinite | KeyNotString | Unsupported

  // ----- the source's recursion -----

  function Canonicalize(v: Value): Result<Value, ConfigHashError>
    decreases v
  {
    match v
    case Null | Str(_) | Bool(_) | Int(_) | Float(_) => Ok(v)
    case NonFiniteFloat | NonFiniteDecimal => Raised(NotFinite)
    case Dec(d) => Ok(Str(Print(d)))
    case List(items) =>
      var copies :- CanonicalizeAll(items);
      Ok(List(copies))
    case Tuple(items) =>
      var copies :- CanonicalizeAll(items);
      Ok(List(copies))
    case Dict(entries) =>
      var copies :- CanonicalizeEntries(entries);
      Ok(Dict(copies))
    case Other => Raised(Unsupported)
  }

  function CanonicalizeAll(items: seq<Value>): Result<seq<Value>, ConfigHashError>
    decreases items
  {
    if items == [] then Ok([])
    else
      var first :- Canonicalize(items[0]);
      var rest :- CanonicalizeAll(items[1..]);
      Ok([first] + rest)
  }

  function CanonicalizeEntries(entries: seq<Entry>): Result<seq<Entry>, ConfigHashError>
    decreases entries
  {
    if entries == [] then Ok([])
    else
      var first :- CanonicalizeEntry(entries[0]);
      var rest :- CanonicalizeEntries(entries[1..]);
      Ok([first] + rest)
  }

  function CanonicalizeEntry(entry: Entry): Result<Entry, ConfigHashError>
    decreases entry
  {
    if entry.key.OtherKey? then Raised(KeyNotString)
    else
      var copy :- Canonicalize(entry.value);
      Ok(Entry(entry.key, copy))
  }

  // ----- element by element -----

  lemma {:induction false} AllElementwise(items: seq<Value>, copies: seq<Value>)
    ensures CanonicalizeAll(items) == Ok(copies) <==>
      |copies| == |items| && forall i :: 0 <= i < |items| ==> Canonicalize(items[i]) == Ok(copies[i])
  {
    if items != [] && copies != [] {
      AllElementwise(items[1..], copies[1..]);
      if CanonicalizeAll(items) == Ok(copies) {
        forall i | 0 <= i < |items|
          ensures Canonicalize(items[i]) == Ok(copies[i])
        {
          if i > 0 {
            assert items[1..][i - 1] == items[i] && copies[1..][i - 1] == copies[i];
          }
        }
      }
      if |copies| == |items| && forall i :: 0 <= i < |items| ==> Canonicalize(items[i]) == Ok(copies[i]) {
        assert forall i :: 0 <= i < |items[1..]| ==> items[1..][i] == items[i + 1] && copies[1..][i] == copies[i + 1];
        assert [copies[0]] + copies[1..] == copies;
      }
    }
  }

  lemma {:induction false} EntriesElementwise(entries: seq<Entry>, copies: seq<Entry>)
    ensures CanonicalizeEntries(entries) == Ok(copies) <==>
      |copies| == |entries| && forall i :: 0 <= i < |entries| ==> CanonicalizeEntry(entries[i]) == Ok(copies[i])
  {
    if entries != [] && copies != [] {
      EntriesElementwise(entries[1..], copies[1..]);
      if CanonicalizeEntries(entries) == Ok(copies) {
        forall i | 0 <= i < |entries|
          ensures CanonicalizeEntry(entries[i]) == Ok(copies[i])
        {
          if i > 0 {
            assert entries[1..][i - 1] == entries[i] && copies[1..][i - 1] == copies[i];
          }
        }
      }
      if |copies| == |entries| && forall i :: 0 <= i < |entries| ==> CanonicalizeEntry(entries[i]) == Ok(copies[i]) {
        assert forall i :: 0 <= i < |entries[1..]| ==>
          entries[1..][i] == entries[i + 1] && copies[1..][i] == copies[i + 1];
        assert CanonicalizeEntry(entries[0]) == Ok(copies[0]);
        assert [copies[0]] + copies[1..] == copies;
      }
    }
  }

  // ----- idempotence -----

  /** Canonicalising a canonical copy changes nothing. */
  lemma {:induction false} CanonicalizeIsIdempotent(v: Value)
    requires Canonicalize(v).Ok?
    ensures Canonicalize(Canonicalize(v).value) == Canonicalize(v)
    decreases v
  {
    if v.List? || v.Tuple? {
      var copies := CanonicalizeAll(v.items).value;
      AllElementwise(v.items, copies);
      forall i | 0 <= i < |copies|
        ensures Canonicalize(copies[i]) == Ok(copies[i])
      {
        CanonicalizeIsIdempotent(v.items[i]);
      }
      AllElementwise(copies, copies);
    } else if v.Dict? {
      var copies := CanonicalizeEntries(v.entries).value;
      EntriesElementwise(v.entries, copies);
      forall i | 0 <= i < |copies|
        ensures CanonicalizeEntry(copies[i]) == Ok(copies[i])
      {
        assert CanonicalizeEntry(v.entries[i]) == Ok(copies[i]);
        CanonicalizeIsIdempotent(v.entries[i].value);
      }
      EntriesElementwise(copies, copies);
    }
  }

  // ----- what is refused -----

  function Children(v: Value): seq<Value> {
    if v.List? || v.Tuple? then v.items
    else if v.Dict? then seq(|v.entries|, i requires 0 <= i < |v.entries| => v.entries[i].value)
    else []
  }

  /** The part of `v` at a path of child positions. */
  function At(v: Value, path: seq<nat>): Option<Value>
    decreases |path|
  {
    if path == [] then Some(v)
    else if path[0] < |Children(v)| then At(Children(v)[path[0]], path[1..])
    else None
  }

  ghost predicate Unhashable(v: Value) {
    || v.NonFiniteFloat? || v.NonFiniteDecimal? || v.Other?
    || (v.Dict? && exists entry <- v.entries :: entry.key.OtherKey?)
  }

  ghost predicate UnhashableAt(v: Value, path: seq<nat>) {
    At(v, path).Some? && Unhashable(At(v, path).value)
  }

  lemma {:induction false} RaisedInItems(items: seq<Value>) returns (i: nat)
    requires CanonicalizeAll(items).Raised?
    ensures i < |items| && Canonicalize(items[i]).Raised?
  {
    if Canonicalize(items[0]).Raised? {
      i := 0;
    } else {
      i := RaisedInItems(items[1..]);
      i := i + 1;
    }
  }

  lemma {:induction false} RaisedInEntries(entries: seq<Entry>) returns (i: nat)
    requires CanonicalizeEntries(entries).Raised?
    ensures i < |entries| && (entries[i].key.OtherKey? || Canonicalize(entries[i].value).Raised?)
  {
    if entries[0].key.OtherKey? || Canonicalize(entries[0].value).Raised? {
      i := 0;
    } else {
      i := RaisedInEntries(entries[1..]);
      i := i + 1;
    }
  }

  lemma {:induction false} PathOfRaise(v: Value) returns (path: seq<nat>)
    requires Canonicalize(v).Raised?
    ensures UnhashableAt(v, path)
    decreases v
  {
    path := [];
    if !Unhashable(v) {
      var i: nat;
      if v.Dict? {
        i := RaisedInEntries(v.entries);
        assert v.entries[i] in v.entries;
        var deeper := PathOfRaise(v.entries[i].value);
        path := [i] + deeper;
        assert path[1..] == deeper;
      } else {
        i := RaisedInItems(v.items);
        var deeper := PathOfRaise(v.items[i]);
        path := [i] + deeper;
        assert path[1..] == deeper;
      }
    }
  }

  lemma ChildIsAccepted(v: Value, i: nat)
    requires Canonicalize(v).Ok? && i < |Children(v)|
    ensures Canonicalize(Children(v)[i]).Ok?
  {
    if v.Dict? {
      var copies := CanonicalizeEntries(v.entries).value;
      EntriesElementwise(v.entries, copies);
      assert CanonicalizeEntry(v.entries[i]) == Ok(copies[i]);
    } else {
      AllElementwise(v.items, CanonicalizeAll(v.items).value);
    }
  }

  lemma AcceptedIsHashable(v: Value)
    requires Canonicalize(v).Ok?
    ensures !Unhashable(v)
  {
    if v.Dict? {
      var copies := CanonicalizeEntries(v.entries).value;
      EntriesElementwise(v.entries, copies);
      forall entry <- v.entries
        ensures entry.key.StrKey?
      {
        var i :| 0 <= i < |v.entries| && v.entries[i] == entry;
        assert CanonicalizeEntry(v.entries[i]) == Ok(copies[i]);
      }
    }
  }

  lemma {:induction false} PartIsHashable(v: Value, path: seq<nat>)
    requires Canonicalize(v).Ok?
    ensures !UnhashableAt(v, path)
    decreases |path|
  {
    AcceptedIsHashable(v);
    if path != [] && path[0] < |Children(v)| {
      ChildIsAccepted(v, path[0]);
      PartIsHashable(Children(v)[path[0]], path[1..]);
    }
  }

  /** A configuration is refused exactly when something unhashable stands somewhere in it. */
  lemma RaisesExactlyOnUnhashable(v: Value)
    ensures Canonicalize(v).Raised? <==> exists path: seq<nat> :: UnhashableAt(v, path)
  {
    if Canonicalize(v).Raised? {
      var path := PathOfRaise(v);
      assert UnhashableAt(v, path);
    } else {
      forall path: seq<nat>
        ensures !UnhashableAt(v, path)
      {
        PartIsHashable(v, path);
      }
    }
  }

  // ----- what the hash depends on -----

  datatype Json =
    | JsonNull
    | JsonString(text: string)
    | JsonBool(flag: bool)
    | JsonInt(number: int)
    | JsonFloat(bits: nat)
    | JsonArray(elements: seq<Json>)
    | JsonObject(members: map<string, Json>)

  /** The JSON value of canonical data; sorting the keys makes the text a function of it. */
  function ToJson(v: Value): Json
    decreases v
  {
    match v
    case Str(text) => JsonString(text)
    case Bool(flag) => JsonBool(flag)
    case Int(number) => JsonInt(number)
    case Float(bits) => JsonFloat(bits)
    case List(items) => JsonArray(seq(|items|, i requires 0 <= i < |items| => ToJson(items[i])))
    case Dict(entries) => JsonObject(Members(entries))
    case _ => JsonNull
  }

  function Members(entries: seq<Entry>): map<string, Json>
    decreases entries
  {
    if entries == [] then map[] else AddMember(Members(entries[..|entries| - 1]), entries[|entries| - 1])
  }

  function AddMember(members: map<string, Json>, entry: Entry): map<string, Json>
    decreases entry
  {
    if entry.key.StrKey? then members[entry.key.name := ToJson(entry.value)] else members
  }

  /** The hashed document. */
  function Document(v: Value): Result<Json, ConfigHashError> {
    var copy :- Canonicalize(v);
    Ok(ToJson(copy))
  }

  ghost predicate DistinctKeys(entries: seq<Entry>) {
    forall i, j :: 0 <= i < j < |entries| ==> entries[i].key != entries[j].key
  }

  /** Every mapping inside has one entry per key, as a dictionary does. */
  ghost predicate IsProper(v: Value)
    decreases v
  {
    && (v.Dict? ==> DistinctKeys(v.entries) && forall i :: 0 <= i < |v.entries| ==> IsProper(v.entries[i].value))
    && (v.List? || v.Tuple? ==> forall i :: 0 <= i < |v.items| ==> IsProper(v.items[i]))
  }

  /** Same content: list or tuple, key order and decimal spelling aside. A decimal also equals its own text. */
  ghost predicate SameContent(a: Value, b: Value)
    decreases a
  {
    match a
    case Dec(d) =>
      || (b.Dec? && SameMagnitude(Rounded(d), Rounded(b.decimal)) && d.negative == b.decimal.negative)
      || b == Str(Print(d))
    case Str(text) => b == a || (b.Dec? && text == Print(b.decimal))
    case List(items) => (b.List? || b.Tuple?) && SameItems(items, b.items)
    case Tuple(items) => (b.List? || b.Tuple?) && SameItems(items, b.items)
    case Dict(entries) => b.Dict? && SameEntries(entries, b.entries)
    case _ => b == a
  }

  ghost predicate SameItems(a: seq<Value>, b: seq<Value>)
    decreases a
  {
    |a| == |b| && forall i :: 0 <= i < |a| ==> SameContent(a[i], b[i])
  }

  function Keys(entries: seq<Entry>): set<Key> {
    set entry <- entries :: entry.key
  }

  ghost predicate SameEntries(a: seq<Entry>, b: seq<Entry>)
    decreases a
  {
    && Keys(a) == Keys(b)
    && forall i, j :: 0 <= i < |a| && 0 <= j < |b| && a[i].key == b[j].key ==> SameEntryContent(a[i], b[j])
  }

  ghost predicate SameEntryContent(a: Entry, b: Entry)
    decreases a
  {
    SameContent(a.value, b.value)
  }

  ghost predicate Named(entries: seq<Entry>) {
    forall i :: 0 <= i < |entries| ==> entries[i].key.StrKey?
  }

  lemma {:induction false} MemberNames(entries: seq<Entry>, name: string)
    requires Named(entries)
    ensures name in Members(entries) <==> StrKey(name) in Keys(entries)
    decreases |entries|
  {
    if entries != [] {
      var init, last := entries[..|entries| - 1], entries[|entries| - 1];
      MemberNames(init, name);
      assert entries == init + [last];
    }
  }

  /** Under distinct keys, no later entry replaces an earlier one. */
  lemma {:induction false} MemberValue(entries: seq<Entry>, i: nat)
    requires Named(entries) && DistinctKeys(entries) && i < |entries|
    ensures entries[i].key.name in Members(entries)
    ensures Members(entries)[entries[i].key.name] == ToJson(entries[i].value)
    decreases |entries|
  {
    var init := entries[..|entries| - 1];
    if i < |init| {
      MemberValue(init, i);
    }
  }

  // ----- the document is a function of the content, and only of it -----

  /** `c` is the canonical copy of `v`. */
  ghost predicate Copied(v: Value, c: Value) {
    Canonicalize(v) == Ok(c)
  }

  lemma CopiedItems(v: Value, c: Value)
    requires Copied(v, c) && (v.List? || v.Tuple?)
    ensures c.List? && |c.items| == |v.items|
    ensures forall i :: 0 <= i < |v.items| ==> Copied(v.items[i], c.items[i])
  {
    AllElementwise(v.items, c.items);
  }

  lemma CopiedEntries(v: Value, c: Value)
    requires Copied(v, c) && v.Dict?
    ensures c.Dict? && |c.entries| == |v.entries| && Named(c.entries)
    ensures forall i :: 0 <= i < |v.entries| ==>
      v.entries[i].key == c.entries[i].key && Copied(v.entries[i].value, c.entries[i].value)
  {
    EntriesElementwise(v.entries, c.entries);
    assert forall i :: 0 <= i < |v.entries| ==> CanonicalizeEntry(v.entries[i]) == Ok(c.entries[i]);
  }

  lemma CopyKeepsKeys(entries: seq<Entry>, copies: seq<Entry>)
    requires |copies| == |entries| && forall i :: 0 <= i < |entries| ==> entries[i].key == copies[i].key
    ensures Keys(copies) == Keys(entries)
  {
    forall key
      ensures key in Keys(copies) <==> key in Keys(entries)
    {
      if key in Keys(copies) {
        var i :| 0 <= i < |copies| && copies[i].key == key;
        assert entries[i] in entries;
      }
      if key in Keys(entries) {
        var i :| 0 <= i < |entries| && entries[i].key == key;
        assert copies[i] in copies;
      }
    }
  }

  /** Two objects are equal when they have the same keys and, key by key, the same value. */
  lemma SameObject(a: seq<Entry>, b: seq<Entry>)
    requires Named(a) && Named(b) && DistinctKeys(a) && DistinctKeys(b)
    ensures Members(a) == Members(b) <==>
      Keys(a) == Keys(b) && forall i, j ::
        0 <= i < |a| && 0 <= j < |b| && a[i].key == b[j].key ==> ToJson(a[i].value) == ToJson(b[j].value)
  {
    if Members(a) == Members(b) {
      forall key
        ensures key in Keys(a) <==> key in Keys(b)
      {
        if key.StrKey? {
          MemberNames(a, key.name);
          MemberNames(b, key.name);
        }
      }
      forall i, j | 0 <= i < |a| && 0 <= j < |b| && a[i].key == b[j].key
        ensures ToJson(a[i].value) == ToJson(b[j].value)
      {
        MemberValue(a, i);
        MemberValue(b, j);
      }
    }
    if Keys(a) == Keys(b) && forall i, j ::
      0 <= i < |a| && 0 <= j < |b| && a[i].key == b[j].key ==> ToJson(a[i].value) == ToJson(b[j].value) {
      forall name
        ensures name in Members(a) <==> name in Members(b)
        ensures name in Members(a) ==> Members(a)[name] == Members(b)[name]
      {
        MemberNames(a, name);
        MemberNames(b, name);
        if name in Members(a) {
          var i :| 0 <= i < |a| && a[i].key == StrKey(name);
          var j :| 0 <= j < |b| && b[j].key == StrKey(name);
          MemberValue(a, i);
          MemberValue(b, j);
        }
      }
      assert Members(a) == Members(b);
    }
  }

  ghost predicate SameJson(a: Value, b: Value) {
    Document(a).Ok? && Document(b).Ok? && Document(a) == Document(b)
  }

  lemma SameArray(a: seq<Value>, b: seq<Value>)
    ensures ToJson(List(a)) == ToJson(List(b)) <==>
      |a| == |b| && forall i :: 0 <= i < |a| && i < |b| ==> ToJson(a[i]) == ToJson(b[i])
  {
    var p, q := ToJson(List(a)).elements, ToJson(List(b)).elements;
    assert |p| == |a| && forall i :: 0 <= i < |a| ==> p[i] == ToJson(a[i]);
    assert |q| == |b| && forall i :: 0 <= i < |b| ==> q[i] == ToJson(b[i]);
    assert p == q <==> |p| == |q| && forall i :: 0 <= i < |p| ==> p[i] == q[i];
  }

  lemma SameLists(a: Value, b: Value)
    requires (a.List? || a.Tuple?) && (b.List? || b.Tuple?) && Canonicalize(a).Ok? && Canonicalize(b).Ok?
    ensures SameJson(a, b) <==>
      |a.items| == |b.items| && forall i :: 0 <= i < |a.items| && i < |b.items| ==> SameJson(a.items[i], b.items[i])
  {
    var x, y := Canonicalize(a).value, Canonicalize(b).value;
    CopiedItems(a, x);
    CopiedItems(b, y);
    SameArray(x.items, y.items);
    forall i | 0 <= i < |a.items| && i < |b.items|
      ensures SameJson(a.items[i], b.items[i]) <==> ToJson(x.items[i]) == ToJson(y.items[i])
    {
      assert Copied(a.items[i], x.items[i]) && Copied(b.items[i], y.items[i]);
    }
  }

  lemma SameDicts(a: Value, b: Value)
    requires a.Dict? && b.Dict? && Canonicalize(a).Ok? && Canonicalize(b).Ok?
    requires DistinctKeys(a.entries) && DistinctKeys(b.entries)
    ensures SameJson(a, b) <==>
      Keys(a.entries) == Keys(b.entries) && forall i, j ::
        0 <= i < |a.entries| && 0 <= j < |b.entries| && a.entries[i].key == b.entries[j].key ==>
          SameJson(a.entries[i].value, b.entries[j].value)
  {
    var x, y := Canonicalize(a).value, Canonicalize(b).value;
    CopiedEntries(a, x);
    CopiedEntries(b, y);
    CopyKeepsKeys(a.entries, x.entries);
    CopyKeepsKeys(b.entries, y.entries);
    SameObject(x.entries, y.entries);
    forall i, j | 0 <= i < |a.entries| && 0 <= j < |b.entries|
      ensures SameJson(a.entries[i].value, b.entries[j].value) <==>
        ToJson(x.entries[i].value) == ToJson(y.entries[j].value)
    {
      assert Copied(a.entries[i].value, x.entries[i].value) && Copied(b.entries[j].value, y.entries[j].value);
    }
  }

  predicate IsContainer(v: Value) {
    v.List? || v.Tuple? || v.Dict?
  }

  lemma SameLeaves(a: Value, b: Value)
    requires Canonicalize(a).Ok? && Canonicalize(b).Ok?
    requires !IsContainer(a) || !IsContainer(b) || a.Dict? != b.Dict?
    ensures SameJson(a, b) <==> SameContent(a, b)
  {
    if a.Dec? && b.Dec? {
      PrintAlike(a.decimal, b.decimal);
    }
  }

  /** Two accepted configurations are hashed as the same document exactly when they have the same content. */
  lemma {:induction false} SameDocumentExactlyOnSameContent(a: Value, b: Value)
    requires IsProper(a) && IsProper(b) && Canonicalize(a).Ok? && Canonicalize(b).Ok?
    ensures SameJson(a, b) <==> SameContent(a, b)
    decreases a
  {
    if a.Dict? && b.Dict? {
      SameDicts(a, b);
      CopiedEntries(a, Canonicalize(a).value);
      CopiedEntries(b, Canonicalize(b).value);
      forall i, j | 0 <= i < |a.entries| && 0 <= j < |b.entries|
        ensures SameJson(a.entries[i].value, b.entries[j].value) <==> SameEntryContent(a.entries[i], b.entries[j])
      {
        SameDocumentExactlyOnSameContent(a.entries[i].value, b.entries[j].value);
      }
    } else if IsContainer(a) && IsContainer(b) && a.Dict? == b.Dict? {
      SameLists(a, b);
      CopiedItems(a, Canonicalize(a).value);
      CopiedItems(b, Canonicalize(b).value);
      forall i | 0 <= i < |a.items| && i < |b.items|
        ensures SameJson(a.items[i], b.items[i]) <==> SameContent(a.items[i], b.items[i])
      {
        SameDocumentExactlyOnSameContent(a.items[i], b.items[i]);
      }
    } else {
      SameLeaves(a, b);
    }
  }
}
