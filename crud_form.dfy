/**
 * The multipart encoder of the generic CRUD hook (`toFormData`): a nested payload is
 * flattened into `FormData` entries whose names are bracketed paths (`a[b][0]`).
 * One `FormData` object is threaded through the recursion and receives every entry.
 */
module CrudForm {
  import opened Common
  import CrudQuery

  /** A `File` or `Blob`: passed through untouched, so only its identity matters. */
  datatype BlobRef = BlobRef(id: nat)

  /** A payload value. `Date` carries what its `toISOString()` returns. */
  datatype FormValue =
    | Undefined
    | Null
    | Prim(p: CrudQuery.Scalar)
    | Date(iso: string)
    | Binary(blob: BlobRef)
    | Arr(items: seq<FormValue>)
    | Obj(fields: seq<Field>)

  /** An own enumerable property of an object, in `for…in` order. */
  datatype Field = Field(key: string, value: FormValue)

  /** A `FormData` entry: a text value or a file/blob value under a name. */
  datatype FormEntry = TextEntry(name: string, text: string) | BlobEntry(name: string, blob: BlobRef)

  /** `ns ? `${ns}[${key}]` : key` — an empty namespace is falsy and adds no brackets. */
  function FormKey(ns: string, key: string): string
  {
    if ns != "" then ns + "[" + key + "]" else key
  }

  /** `${formKey}[${i}]`, the name of an array element. */
  function IndexKey(formKey: string, i: nat): string
  {
    formKey + "[" + CrudQuery.NatString(i) + "]"
  }

  // ---------------------------------------------------------------------------
  // What toFormData appends, as functions

  /** The entries for one property `key: value` of an object under namespace `ns`. */
  function FieldEntries(key: string, value: FormValue, ns: string): seq<FormEntry>
    decreases value
  {
    var formKey := FormKey(ns, key);
    match value
    case Undefined => []
    case Null => []
    case Date(iso) => [TextEntry(formKey, iso)]
    case Binary(b) => [BlobEntry(formKey, b)]
    case Arr(items) => ArrayEntries(value, |items|, formKey)
    case Obj(fields) => ObjectEntries(value, |fields|, formKey)
    case Prim(p) => [TextEntry(formKey, CrudQuery.ScalarString(p))]
  }

  /**
   * The entries of `toFormData(obj, fd, ns)` for the first `n` properties of `obj`.
   * An array reached through recursion is walked by `for…in` as well: its properties
   * are its indices, and its null or undefined elements are skipped like any property.
   */
  function ObjectEntries(obj: FormValue, n: nat, ns: string): seq<FormEntry>
    requires obj.Obj? || obj.Arr?
    requires n <= (if obj.Obj? then |obj.fields| else |obj.items|)
    decreases obj, n
  {
    if n == 0 then []
    else if obj.Obj? then
      ObjectEntries(obj, n - 1, ns) + FieldEntries(obj.fields[n - 1].key, obj.fields[n - 1].value, ns)
    else
      ObjectEntries(obj, n - 1, ns) + FieldEntries(CrudQuery.NatString(n - 1), obj.items[n - 1], ns)
  }

  /** The entries of `value.forEach((item, i) => …)` for the first `n` elements of an array field. */
  function ArrayEntries(arr: FormValue, n: nat, formKey: string): seq<FormEntry>
    requires arr.Arr? && n <= |arr.items|
    decreases arr, n
  {
    if n == 0 then []
    else ArrayEntries(arr, n - 1, formKey) + ItemEntries(arr.items[n - 1], IndexKey(formKey, n - 1))
  }

  /** The entries for one element of an array field, under the name `k`. Null and undefined
      elements are not skipped here: they become the strings "null" and "undefined". */
  function ItemEntries(item: FormValue, k: string): seq<FormEntry>
    decreases item
  {
    match item
    case Binary(b) => [BlobEntry(k, b)]
    case Date(iso) => [TextEntry(k, iso)]
    case Obj(fields) => ObjectEntries(item, |fields|, k)
    case Arr(items) => ObjectEntries(item, |items|, k)
    case Null => [TextEntry(k, "null")]
    case Undefined => [TextEntry(k, "undefined")]
    case Prim(p) => [TextEntry(k, CrudQuery.ScalarString(p))]
  }

  /** `toFormData(payload)`: a fresh `FormData` filled from a top-level object. */
  function FormDataOf(payload: seq<Field>): seq<FormEntry>
  {
    ObjectEntries(Obj(payload), |payload|, "")
  }

  // ---------------------------------------------------------------------------
  // The imperative encoder

  /** The part of `FormData` that `toFormData` uses: its entry list and `append`. */
  class FormData {
    var entries: seq<FormEntry>

    constructor ()
      ensures entries == []
    {
      entries := [];
    }

    method Append(e: FormEntry)
      modifies this
      ensures entries == old(entries) + [e]
    {
      entries := entries + [e];
    }
  }

  /** `toFormData(obj, fd, ns)`: append the entries of every property of `obj` to `fd`. */
  method AppendObject(fd: FormData, obj: FormValue, ns: string)
    requires obj.Obj? || obj.Arr?
    modifies fd
    ensures fd.entries == old(fd.entries) + ObjectEntries(obj, if obj.Obj? then |obj.fields| else |obj.items|, ns)
    decreases obj, 2
  {
    var n := if obj.Obj? then |obj.fields| else |obj.items|;
    var i := 0;
    while i < n
      invariant 0 <= i <= n
      invariant fd.entries == old(fd.entries) + ObjectEntries(obj, i, ns)
    {
      var key, value;
      if obj.Obj? {
        key, value := obj.fields[i].key, obj.fields[i].value;
      } else {
        key, value := CrudQuery.NatString(i), obj.items[i];
      }
      AppendField(fd, key, value, ns);
      ConcatAssoc(old(fd.entries), ObjectEntries(obj, i, ns), FieldEntries(key, value, ns));
      i := i + 1;
    }
  }

  /** The body of the `for…in` loop for one property. */
  method AppendField(fd: FormData, key: string, value: FormValue, ns: string)
    modifies fd
    ensures fd.entries == old(fd.entries) + FieldEntries(key, value, ns)
    decreases value, 3
  {
    if value.Null? || value.Undefined? {
      return;
    }
    var formKey := if ns != "" then ns + "[" + key + "]" else key;
    match value
    case Date(iso) => fd.Append(TextEntry(formKey, iso));
    case Binary(b) => fd.Append(BlobEntry(formKey, b));
    case Arr(items) =>
      var i := 0;
      while i < |items|
        invariant 0 <= i <= |items|
        invariant fd.entries == old(fd.entries) + ArrayEntries(value, i, formKey)
      {
        AppendItem(fd, items[i], IndexKey(formKey, i));
        ConcatAssoc(old(fd.entries), ArrayEntries(value, i, formKey), ItemEntries(items[i], IndexKey(formKey, i)));
        i := i + 1;
      }
    case Obj(_) => AppendObject(fd, value, formKey);
    case Prim(p) => fd.Append(TextEntry(formKey, CrudQuery.ScalarString(p)));
  }

  /** The body of the `forEach` callback for one array element. */
  method AppendItem(fd: FormData, item: FormValue, k: string)
    modifies fd
    ensures fd.entries == old(fd.entries) + ItemEntries(item, k)
    decreases item, 3
  {
    match item
    case Binary(b) => fd.Append(BlobEntry(k, b));
    case Date(iso) => fd.Append(TextEntry(k, iso));
    case Obj(_) => AppendObject(fd, item, k);
    case Arr(_) => AppendObject(fd, item, k);
    case Null => fd.Append(TextEntry(k, "null"));
    case Undefined => fd.Append(TextEntry(k, "undefined"));
    case Prim(p) => fd.Append(TextEntry(k, CrudQuery.ScalarString(p)));
  }

  /** `toFormData(payload)` as the hook calls it: a fresh `FormData`, no namespace. */
  method ToFormData(payload: seq<Field>) returns (fd: FormData)
    ensures fresh(fd)
    ensures fd.entries == FormDataOf(payload)
  {
    fd := new FormData();
    AppendObject(fd, Obj(payload), "");
  }

  // ---------------------------------------------------------------------------
  // Field names

  /** Every name produced for `key: value` starts with that property's form key. */
  lemma {:induction false} FieldNamesUnderKey(key: string, value: FormValue, ns: string)
    ensures forall e :: e in FieldEntries(key, value, ns) ==> IsPrefix(FormKey(ns, key), e.name)
    decreases value
  {
    var formKey := FormKey(ns, key);
    match value
    case Arr(items) =>
      ArrayNamesUnder(value, |items|, formKey);
      forall e | e in FieldEntries(key, value, ns) ensures IsPrefix(formKey, e.name) {
        PrefixOfPrefix(formKey, "[", e.name);
      }
    case Obj(fields) =>
      ObjectNamesUnder(value, |fields|, formKey);
      forall e | e in FieldEntries(key, value, ns) ensures IsPrefix(formKey, e.name) {
        if formKey != "" {
          PrefixOfPrefix(formKey, "[", e.name);
        }
      }
    case _ =>
  }

  /** Under a non-empty namespace every name is `ns[…`. */
  lemma {:induction false} ObjectNamesUnder(obj: FormValue, n: nat, ns: string)
    requires obj.Obj? || obj.Arr?
    requires n <= (if obj.Obj? then |obj.fields| else |obj.items|)
    ensures ns != "" ==> forall e :: e in ObjectEntries(obj, n, ns) ==> IsPrefix(ns + "[", e.name)
    decreases obj, n
  {
    if n > 0 && ns != "" {
      ObjectNamesUnder(obj, n - 1, ns);
      var key := if obj.Obj? then obj.fields[n - 1].key else CrudQuery.NatString(n - 1);
      var value := if obj.Obj? then obj.fields[n - 1].value else obj.items[n - 1];
      FieldNamesUnderKey(key, value, ns);
      forall e | e in FieldEntries(key, value, ns) ensures IsPrefix(ns + "[", e.name) {
        assert FormKey(ns, key) == (ns + "[") + (key + "]");
        PrefixOfPrefix(ns + "[", key + "]", e.name);
      }
    }
  }

  /** Every name produced for the elements of an array field is `formKey[…`. */
  lemma {:induction false} ArrayNamesUnder(arr: FormValue, n: nat, formKey: string)
    requires arr.Arr? && n <= |arr.items|
    ensures forall e :: e in ArrayEntries(arr, n, formKey) ==> IsPrefix(formKey + "[", e.name)
    decreases arr, n
  {
    if n > 0 {
      ArrayNamesUnder(arr, n - 1, formKey);
      var k := IndexKey(formKey, n - 1);
      ItemNamesUnder(arr.items[n - 1], k);
      forall e | e in ItemEntries(arr.items[n - 1], k) ensures IsPrefix(formKey + "[", e.name) {
        assert k == (formKey + "[") + (CrudQuery.NatString(n - 1) + "]");
        PrefixOfPrefix(formKey + "[", CrudQuery.NatString(n - 1) + "]", e.name);
      }
    }
  }

  /** Every name produced for an array element starts with the element's name `key[i]`. */
  lemma {:induction false} ItemNamesUnder(item: FormValue, k: string)
    ensures forall e :: e in ItemEntries(item, k) ==> IsPrefix(k, e.name)
    decreases item
  {
    if item.Obj? || item.Arr? {
      ObjectNamesUnder(item, if item.Obj? then |item.fields| else |item.items|, k);
      forall e | e in ItemEntries(item, k) ensures IsPrefix(k, e.name) {
        if k != "" {
          PrefixOfPrefix(k, "[", e.name);
        }
      }
    }
  }

  // ---------------------------------------------------------------------------
  // Files and blobs pass through unchanged

  /** The files and blobs inside a value, in traversal order. */
  function Blobs(v: FormValue): seq<BlobRef>
    decreases v
  {
    match v
    case Binary(b) => [b]
    case Arr(items) => BlobsUpTo(v, |items|)
    case Obj(fields) => BlobsUpTo(v, |fields|)
    case _ => []
  }

  function BlobsUpTo(v: FormValue, n: nat): seq<BlobRef>
    requires v.Obj? || v.Arr?
    requires n <= (if v.Obj? then |v.fields| else |v.items|)
    decreases v, n
  {
    if n == 0 then []
    else BlobsUpTo(v, n - 1) + Blobs(if v.Obj? then v.fields[n - 1].value else v.items[n - 1])
  }

  /** The blobs carried by a list of `FormData` entries, in entry order. */
  function EntryBlobs(es: seq<FormEntry>): seq<BlobRef>
  {
    if es == [] then []
    else EntryBlobs(es[..|es| - 1]) + (if es[|es| - 1].BlobEntry? then [es[|es| - 1].blob] else [])
  }

  lemma {:induction false} EntryBlobsAppend(a: seq<FormEntry>, b: seq<FormEntry>)
    ensures EntryBlobs(a + b) == EntryBlobs(a) + EntryBlobs(b)
    decreases |b|
  {
    if b == [] {
      assert a + b == a;
    } else {
      var b' := b[..|b| - 1];
      var last := b[|b| - 1];
      var tail: seq<BlobRef> := if last.BlobEntry? then [last.blob] else [];
      assert (a + b)[..|a + b| - 1] == a + b';
      assert EntryBlobs(a + b) == EntryBlobs(a + b') + tail;
      assert EntryBlobs(b) == EntryBlobs(b') + tail;
      EntryBlobsAppend(a, b');
      ConcatAssoc(EntryBlobs(a), EntryBlobs(b'), tail);
    }
  }

  lemma {:induction false} FieldBlobs(key: string, value: FormValue, ns: string)
    ensures EntryBlobs(FieldEntries(key, value, ns)) == Blobs(value)
    decreases value
  {
    var formKey := FormKey(ns, key);
    match value
    case Arr(items) => ArrayBlobs(value, |items|, formKey);
    case Obj(fields) => ObjectBlobs(value, |fields|, formKey);
    case Binary(b) => assert [BlobEntry(formKey, b)][..0] == [];
    case Date(iso) => assert [TextEntry(formKey, iso)][..0] == [];
    case Prim(p) => assert [TextEntry(formKey, CrudQuery.ScalarString(p))][..0] == [];
    case Null =>
    case Undefined =>
  }

  lemma {:induction false} ObjectBlobs(obj: FormValue, n: nat, ns: string)
    requires obj.Obj? || obj.Arr?
    requires n <= (if obj.Obj? then |obj.fields| else |obj.items|)
    ensures EntryBlobs(ObjectEntries(obj, n, ns)) == BlobsUpTo(obj, n)
    decreases obj, n
  {
    if n > 0 {
      var key := if obj.Obj? then obj.fields[n - 1].key else CrudQuery.NatString(n - 1);
      var value := if obj.Obj? then obj.fields[n - 1].value else obj.items[n - 1];
      var init := ObjectEntries(obj, n - 1, ns);
      var last := FieldEntries(key, value, ns);
      assert ObjectEntries(obj, n, ns) == init + last;
      assert BlobsUpTo(obj, n) == BlobsUpTo(obj, n - 1) + Blobs(value);
      assert EntryBlobs(init) == BlobsUpTo(obj, n - 1) by {
        ObjectBlobs(obj, n - 1, ns);
      }
      assert EntryBlobs(last) == Blobs(value) by {
        FieldBlobs(key, value, ns);
      }
      EntryBlobsAppend(init, last);
    }
  }

  lemma {:induction false} ArrayBlobs(arr: FormValue, n: nat, formKey: string)
    requires arr.Arr? && n <= |arr.items|
    ensures EntryBlobs(ArrayEntries(arr, n, formKey)) == BlobsUpTo(arr, n)
    decreases arr, n
  {
    if n > 0 {
      var k := IndexKey(formKey, n - 1);
      var init := ArrayEntries(arr, n - 1, formKey);
      var item := arr.items[n - 1];
      assert ArrayEntries(arr, n, formKey) == init + ItemEntries(item, k);
      assert BlobsUpTo(arr, n) == BlobsUpTo(arr, n - 1) + Blobs(item);
      assert EntryBlobs(init + ItemEntries(item, k)) == EntryBlobs(init) + EntryBlobs(ItemEntries(item, k)) by {
        EntryBlobsAppend(init, ItemEntries(item, k));
      }
      ArrayBlobs(arr, n - 1, formKey);
      ItemBlobs(item, k);
    }
  }

  lemma {:induction false} ItemBlobs(item: FormValue, k: string)
    ensures EntryBlobs(ItemEntries(item, k)) == Blobs(item)
    decreases item
  {
    match item
    case Arr(items) => ObjectBlobs(item, |items|, k);
    case Obj(fields) => ObjectBlobs(item, |fields|, k);
    case Binary(b) => assert [BlobEntry(k, b)][..0] == [];
    case Date(iso) => assert [TextEntry(k, iso)][..0] == [];
    case Prim(p) => assert [TextEntry(k, CrudQuery.ScalarString(p))][..0] == [];
    case Null => assert [TextEntry(k, "null")][..0] == [];
    case Undefined => assert [TextEntry(k, "undefined")][..0] == [];
  }

  /** Every file and blob of the payload is appended once, unchanged, in payload order. */
  lemma FormDataBlobs(payload: seq<Field>)
    ensures EntryBlobs(FormDataOf(payload)) == Blobs(Obj(payload))
  {
    ObjectBlobs(Obj(payload), |payload|, "");
  }

  // ---------------------------------------------------------------------------
  // Null and undefined properties are skipped; array elements are not

  /** The entries of a property list, property after property. */
  function FieldsEntries(fs: seq<Field>, ns: string): seq<FormEntry>
  {
    if fs == [] then [] else FieldsEntries(fs[..|fs| - 1], ns) + FieldEntries(fs[|fs| - 1].key, fs[|fs| - 1].value, ns)
  }

  lemma {:induction false} ObjectEntriesAsFields(fs: seq<Field>, n: nat, ns: string)
    requires n <= |fs|
    ensures ObjectEntries(Obj(fs), n, ns) == FieldsEntries(fs[..n], ns)
  {
    if n > 0 {
      ObjectEntriesAsFields(fs, n - 1, ns);
      assert fs[..n][..n - 1] == fs[..n - 1];
    }
  }

  lemma {:induction false} FieldsEntriesAppend(a: seq<Field>, b: seq<Field>, ns: string)
    ensures FieldsEntries(a + b, ns) == FieldsEntries(a, ns) + FieldsEntries(b, ns)
    decreases |b|
  {
    if b == [] {
      assert a + b == a;
    } else {
      assert (a + b)[..|a + b| - 1] == a + b[..|b| - 1];
      assert (a + b)[|a + b| - 1] == b[|b| - 1];
      FieldsEntriesAppend(a, b[..|b| - 1], ns);
      ConcatAssoc(FieldsEntries(a, ns), FieldsEntries(b[..|b| - 1], ns), FieldEntries(b[|b| - 1].key, b[|b| - 1].value, ns));
    }
  }

  /** A property whose value is null or undefined adds nothing to the form. */
  lemma NullishFieldIsSkipped(a: seq<Field>, key: string, v: FormValue, b: seq<Field>, ns: string)
    requires v.Null? || v.Undefined?
    ensures ObjectEntries(Obj(a + [Field(key, v)] + b), |a| + 1 + |b|, ns) == ObjectEntries(Obj(a + b), |a| + |b|, ns)
  {
    var f := [Field(key, v)];
    var front := a + f;
    var whole := front + b;
    assert FieldsEntries(front, ns) == FieldsEntries(a, ns) by {
      assert FieldsEntries(f, ns) == [] by {
        assert f[..0] == [];
      }
      FieldsEntriesAppend(a, f, ns);
    }
    var rest := FieldsEntries(b, ns);
    assert FieldsEntries(whole, ns) == FieldsEntries(a, ns) + rest by {
      FieldsEntriesAppend(front, b, ns);
    }
    assert FieldsEntries(a + b, ns) == FieldsEntries(a, ns) + rest by {
      FieldsEntriesAppend(a, b, ns);
    }
    assert ObjectEntries(Obj(whole), |whole|, ns) == FieldsEntries(whole, ns) by {
      ObjectEntriesAsFields(whole, |whole|, ns);
      assert whole[..|whole|] == whole;
    }
    assert ObjectEntries(Obj(a + b), |a + b|, ns) == FieldsEntries(a + b, ns) by {
      ObjectEntriesAsFields(a + b, |a + b|, ns);
      assert (a + b)[..|a + b|] == a + b;
    }
    assert |whole| == |a| + 1 + |b|;
  }

  /** The string an array element of scalar kind is appended as. */
  predicate IsScalarItem(v: FormValue)
  {
    v.Prim? || v.Null? || v.Undefined?
  }

  function ItemString(v: FormValue): string
    requires IsScalarItem(v)
  {
    match v
    case Prim(p) => CrudQuery.ScalarString(p)
    case Null => "null"
    case Undefined => "undefined"
  }

  /** An array of scalars (null and undefined included) becomes one text entry per
      element, named `key[i]`, in element order. */
  lemma {:induction false} ScalarArrayEntries(arr: FormValue, n: nat, formKey: string)
    requires arr.Arr? && n <= |arr.items|
    requires forall i :: 0 <= i < |arr.items| ==> IsScalarItem(arr.items[i])
    ensures ArrayEntries(arr, n, formKey)
         == seq(n, i requires 0 <= i < n => TextEntry(IndexKey(formKey, i), ItemString(arr.items[i])))
    decreases n
  {
    if n > 0 {
      ScalarArrayEntries(arr, n - 1, formKey);
    }
  }

  /** A concrete case: `{a: {b: [1]}}` becomes the single field `a[b][0]=1`, and in
      `{a: [[null], null]}` the null inside the nested array is skipped while the
      top-level null element is sent as the string "null". */
  lemma NestedExamples()
    ensures FormDataOf([Field("a", Obj([Field("b", Arr([Prim(CrudQuery.Num(1))]))]))]) == [TextEntry("a[b][0]", "1")]
    ensures FormDataOf([Field("a", Arr([Arr([Null]), Null]))]) == [TextEntry("a[1]", "null")]
  {
    assert CrudQuery.NatString(0) == "0" && CrudQuery.NatString(1) == "1";
    assert CrudQuery.NumString(1) == "1";
    var inner := Arr([Prim(CrudQuery.Num(1))]);
    assert IndexKey("a[b]", 0) == "a[b][0]";
    assert ItemEntries(inner.items[0], "a[b][0]") == [TextEntry("a[b][0]", "1")];
    assert ArrayEntries(inner, 0, "a[b]") == [];
    assert ArrayEntries(inner, 1, "a[b]") == [TextEntry("a[b][0]", "1")];
    var mid := Obj([Field("b", inner)]);
    assert FormKey("a", "b") == "a[b]";
    assert FieldEntries("b", inner, "a") == [TextEntry("a[b][0]", "1")];
    assert ObjectEntries(mid, 1, "a") == [TextEntry("a[b][0]", "1")];
    assert FieldEntries("a", mid, "") == [TextEntry("a[b][0]", "1")];
    var top := [Field("a", mid)];
    assert ObjectEntries(Obj(top), 1, "") == ObjectEntries(Obj(top), 0, "") + FieldEntries("a", mid, "");

    var outer := Arr([Arr([Null]), Null]);
    assert ObjectEntries(Arr([Null]), 1, "a[0]") == [];
    assert ItemEntries(Arr([Null]), "a[0]") == [];
    assert IndexKey("a", 1) == "a[1]";
    assert ArrayEntries(outer, 1, "a") == [];
    assert ArrayEntries(outer, 2, "a") == [TextEntry("a[1]", "null")];
    assert FieldEntries("a", outer, "") == [TextEntry("a[1]", "null")];
    var top2 := [Field("a", outer)];
    assert ObjectEntries(Obj(top2), 1, "") == ObjectEntries(Obj(top2), 0, "") + FieldEntries("a", outer, "");
  }
}
