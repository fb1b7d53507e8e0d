/**
 * The query-string encoder of the generic CRUD hook (`toSearchParams`), the
 * `URLSearchParams` list it appends to, and the application/x-www-form-urlencoded
 * serializer and parser of section 5 of the WHATWG URL Standard that turn that list
 * into the `?…` part of a request URL and back. The percent-encoding of single
 * names and values is a parameter (`esc`, with inverse `unesc`).
 */
module CrudQuery {
  import opened Common

  /** A scalar filter value: `string | number | boolean` (numbers are integers here). */
  datatype Scalar = Str(s: string) | Num(n: int) | Bool(b: bool)

  /** One filter value: `undefined`, a scalar, or an array of scalars. */
  datatype QueryParam = Undefined | One(value: Scalar) | Many(items: seq<Scalar>)

  datatype Pagination = Pagination(currentPage: int, pageSize: int)

  /** A filter record, as the `[key, value]` list `Object.entries` yields. */
  type Entries = seq<(string, QueryParam)>

  /** A name-value pair of a `URLSearchParams` list. */
  type Pair = (string, string)

  // ---------------------------------------------------------------------------
  // String(v) for the scalars

  function DigitChar(d: nat): char
    requires d < 10
  {
    "0123456789"[d]
  }

  /** Decimal digits of a natural number, most significant first, no leading zero. */
  function NatString(n: nat): (r: string)
    ensures |r| >= 1 && AllDigits(r)
    decreases n
  {
    if n < 10 then [DigitChar(n)] else NatString(n / 10) + [DigitChar(n % 10)]
  }

  /** `String(n)` for an integer `n`: a minus sign in front of negative numbers. */
  function NumString(n: int): string
  {
    if n < 0 then "-" + NatString(-n) else NatString(n)
  }

  /** `String(v)`: numbers in decimal, booleans as `true`/`false`, strings unchanged. */
  function ScalarString(v: Scalar): string
  {
    match v
    case Str(s) => s
    case Num(n) => NumString(n)
    case Bool(b) => if b then "true" else "false"
  }

  predicate AllDigits(s: string)
  {
    forall i :: 0 <= i < |s| ==> '0' <= s[i] <= '9'
  }

  /** Reads back a sequence of decimal digits. */
  function DigitsValue(s: string): nat
    requires AllDigits(s)
  {
    if s == [] then 0 else 10 * DigitsValue(s[..|s| - 1]) + (s[|s| - 1] as int - '0' as int)
  }

  /** Reads back what `NumString` writes. */
  function ParseNum(s: string): int
    requires |s| >= 1
    requires AllDigits(s[1..])
    requires s[0] == '-' || '0' <= s[0] <= '9'
  {
    if s[0] == '-' then -(DigitsValue(s[1..]) as int) else DigitsValue(s)
  }

  lemma {:induction false} NatStringRoundTrip(n: nat)
    ensures DigitsValue(NatString(n)) == n
    decreases n
  {
    if n >= 10 {
      NatStringRoundTrip(n / 10);
      var s := NatString(n);
      assert s[..|s| - 1] == NatString(n / 10);
    }
  }

  /** `String(n)` loses nothing: every integer is read back from its decimal form. */
  lemma NumStringRoundTrip(n: int)
    ensures var s := NumString(n);
            |s| >= 1 && (s[0] == '-' || '0' <= s[0] <= '9') && AllDigits(s[1..]) &&
            ParseNum(s) == n
  {
    var s := NumString(n);
    if n < 0 {
      NatStringRoundTrip(-n);
      assert s[1..] == NatString(-n);
    } else {
      NatStringRoundTrip(n);
      assert AllDigits(s);
    }
  }

  // ---------------------------------------------------------------------------
  // The pair list that toSearchParams builds

  /** The pairs the pagination adds in front: `page` then `limit`, or none. */
  function PaginationPairs(pagination: Option<Pagination>): seq<Pair>
  {
    match pagination
    case None => []
    case Some(p) => [("page", NumString(p.currentPage)), ("limit", NumString(p.pageSize))]
  }

  /** One pair per array element, all under the same key, in element order. */
  function RepeatKey(k: string, items: seq<Scalar>): (r: seq<Pair>)
    ensures |r| == |items|
    ensures forall i :: 0 <= i < |items| ==> r[i] == (k, ScalarString(items[i]))
  {
    if items == [] then [] else RepeatKey(k, items[..|items| - 1]) + [(k, ScalarString(items[|items| - 1]))]
  }

  /** The pairs a single filter entry contributes. */
  function EntryPairs(k: string, v: QueryParam): seq<Pair>
  {
    match v
    case Undefined => []
    case One(x) => [(k, ScalarString(x))]
    case Many(items) => RepeatKey(k, items)
  }

  /** The pairs of a filter record, entry after entry. */
  function FilterPairs(es: Entries): seq<Pair>
  {
    if es == [] then [] else FilterPairs(es[..|es| - 1]) + EntryPairs(es[|es| - 1].0, es[|es| - 1].1)
  }

  /** The whole `URLSearchParams` list of `toSearchParams(pagination, queryParams)`. */
  function SearchPairs(pagination: Option<Pagination>, params: Option<Entries>): (r: seq<Pair>)
    ensures pagination.Some? ==>
              |r| >= 2 && r[0] == ("page", NumString(pagination.value.currentPage))
              && r[1] == ("limit", NumString(pagination.value.pageSize))
    ensures pagination.Some? ==> r[2..] == (if params.Some? then FilterPairs(params.value) else [])
    ensures pagination.None? ==> r == (if params.Some? then FilterPairs(params.value) else [])
  {
    PaginationPairs(pagination) + (if params.Some? then FilterPairs(params.value) else [])
  }

  lemma {:induction false} FilterPairsAppend(a: Entries, b: Entries)
    ensures FilterPairs(a + b) == FilterPairs(a) + FilterPairs(b)
    decreases |b|
  {
    if b == [] {
      assert a + b == a;
    } else {
      var b' := b[..|b| - 1];
      var tail := EntryPairs(b[|b| - 1].0, b[|b| - 1].1);
      assert (a + b)[..|a + b| - 1] == a + b';
      assert FilterPairs(a + b) == FilterPairs(a + b') + tail;
      assert FilterPairs(b) == FilterPairs(b') + tail;
      FilterPairsAppend(a, b');
      ConcatAssoc(FilterPairs(a), FilterPairs(b'), tail);
    }
  }

  lemma FilterPairsSingle(k: string, v: QueryParam)
    ensures FilterPairs([(k, v)]) == EntryPairs(k, v)
  {
    assert [(k, v)][..0] == [];
  }

  lemma FilterPairsPrefix(es: Entries, i: nat)
    requires i < |es|
    ensures FilterPairs(es[..i + 1]) == FilterPairs(es[..i]) + EntryPairs(es[i].0, es[i].1)
  {
    assert es[..i + 1][..i] == es[..i];
  }

  /** An entry whose value is `undefined` contributes nothing: removing it changes nothing. */
  lemma UndefinedEntryIsOmitted(a: Entries, k: string, b: Entries)
    ensures FilterPairs(a + [(k, Undefined)] + b) == FilterPairs(a + b)
  {
    FilterPairsAppend(a + [(k, Undefined)], b);
    FilterPairsAppend(a, [(k, Undefined)]);
    FilterPairsAppend(a, b);
    FilterPairsSingle(k, Undefined);
  }

  /** Falsy scalars other than `undefined` (`0`, `false`, `""`) are emitted as `String(v)`. */
  lemma FalsyScalarsAreKept(a: Entries, k: string, b: Entries)
    ensures FilterPairs(a + [(k, One(Num(0)))] + b) == FilterPairs(a) + [(k, "0")] + FilterPairs(b)
    ensures FilterPairs(a + [(k, One(Bool(false)))] + b) == FilterPairs(a) + [(k, "false")] + FilterPairs(b)
    ensures FilterPairs(a + [(k, One(Str("")))] + b) == FilterPairs(a) + [(k, "")] + FilterPairs(b)
  {
    forall v | v in [Num(0), Bool(false), Str("")]
      ensures FilterPairs(a + [(k, One(v))] + b) == FilterPairs(a) + [(k, ScalarString(v))] + FilterPairs(b)
    {
      FilterPairsAppend(a + [(k, One(v))], b);
      FilterPairsAppend(a, [(k, One(v))]);
      FilterPairsSingle(k, One(v));
    }
  }

  /** An array entry contributes one pair per element under its key, in element order
      (`RepeatKey`'s contract says which). */
  lemma ArrayEntryRepeatsKey(a: Entries, k: string, items: seq<Scalar>, b: Entries)
    ensures FilterPairs(a + [(k, Many(items))] + b) == FilterPairs(a) + RepeatKey(k, items) + FilterPairs(b)
  {
    FilterPairsAppend(a + [(k, Many(items))], b);
    FilterPairsAppend(a, [(k, Many(items))]);
    FilterPairsSingle(k, Many(items));
  }

  /** An empty array contributes nothing. */
  lemma EmptyArrayEntryIsOmitted(a: Entries, k: string, b: Entries)
    ensures FilterPairs(a + [(k, Many([]))] + b) == FilterPairs(a + b)
  {
    calc {
      FilterPairs(a + [(k, Many([]))] + b);
      { FilterPairsAppend(a + [(k, Many([]))], b); }
      FilterPairs(a + [(k, Many([]))]) + FilterPairs(b);
      { FilterPairsAppend(a, [(k, Many([]))]); FilterPairsSingle(k, Many([])); }
      FilterPairs(a) + EntryPairs(k, Many([])) + FilterPairs(b);
      { assert EntryPairs(k, Many([])) == []; }
      FilterPairs(a) + FilterPairs(b);
      { FilterPairsAppend(a, b); }
      FilterPairs(a + b);
    }
  }

  // ---------------------------------------------------------------------------
  // URLSearchParams and toSearchParams

  /** The part of `URLSearchParams` that `toSearchParams` uses: its pair list and `append`. */
  class SearchParams {
    var list: seq<Pair>

    constructor ()
      ensures list == []
    {
      list := [];
    }

    method Append(name: string, value: string)
      modifies this
      ensures list == old(list) + [(name, value)]
    {
      list := list + [(name, value)];
    }

    function ToString(esc: string -> string): string
      reads this
    {
      Serialize(list, esc)
    }
  }

  /** `toSearchParams`: append the pagination, then every filter entry, then serialize. */
  method ToSearchParams(pagination: Option<Pagination>, params: Option<Entries>, esc: string -> string)
    returns (qs: string)
    ensures qs == Serialize(SearchPairs(pagination, params), esc)
  {
    var sp := new SearchParams();
    if pagination.Some? {
      sp.Append("page", NumString(pagination.value.currentPage));
      sp.Append("limit", NumString(pagination.value.pageSize));
    }
    if params.Some? {
      var entries := params.value;
      var i := 0;
      while i < |entries|
        invariant 0 <= i <= |entries|
        invariant sp.list == PaginationPairs(pagination) + FilterPairs(entries[..i])
      {
        AppendEntry(sp, entries[i].0, entries[i].1);
        assert sp.list == PaginationPairs(pagination) + FilterPairs(entries[..i + 1]) by {
          FilterPairsPrefix(entries, i);
          ConcatAssoc(PaginationPairs(pagination), FilterPairs(entries[..i]), EntryPairs(entries[i].0, entries[i].1));
        }
        i := i + 1;
      }
      assert entries[..i] == entries;
    } else {
      assert sp.list == PaginationPairs(pagination) + [];
    }
    qs := sp.ToString(esc);
  }

  /** The body of the loop over the filter entries: skip `undefined`, repeat the key for
      an array, append `String(v)` otherwise. */
  method AppendEntry(sp: SearchParams, k: string, v: QueryParam)
    modifies sp
    ensures sp.list == old(sp.list) + EntryPairs(k, v)
  {
    match v
    case Undefined =>
      assert sp.list == sp.list + [];
    case Many(items) =>
      AppendEach(sp, k, items);
    case One(x) =>
      sp.Append(k, ScalarString(x));
  }

  /** `v.forEach((item) => sp.append(k, String(item)))`. */
  method AppendEach(sp: SearchParams, k: string, items: seq<Scalar>)
    modifies sp
    ensures sp.list == old(sp.list) + RepeatKey(k, items)
  {
    var j := 0;
    while j < |items|
      invariant 0 <= j <= |items|
      invariant sp.list == old(sp.list) + RepeatKey(k, items[..j])
    {
      assert items[..j + 1][..j] == items[..j];
      sp.Append(k, ScalarString(items[j]));
      j := j + 1;
    }
    assert items[..j] == items;
  }

  // ---------------------------------------------------------------------------
  // The application/x-www-form-urlencoded serializer and parser

  /** `parts` joined with `sep` between consecutive parts. */
  function Join(parts: seq<string>, sep: char): string
  {
    if |parts| == 0 then "" else if |parts| == 1 then parts[0] else parts[0] + [sep] + Join(parts[1..], sep)
  }

  function IndexOf(s: string, c: char): (i: nat)
    requires c in s
    ensures i < |s| && s[i] == c && c !in s[..i]
  {
    if s[0] == c then 0 else 1 + IndexOf(s[1..], c)
  }

  /** `s` cut at every `sep`; a string without `sep` is one part. */
  function Split(s: string, sep: char): (r: seq<string>)
    ensures |r| >= 1
    decreases |s|
  {
    if sep !in s then [s] else var i := IndexOf(s, sep); [s[..i]] + Split(s[i + 1..], sep)
  }

  lemma {:induction false} IndexOfAfter(a: string, c: char, b: string)
    requires c !in a
    ensures IndexOf(a + [c] + b, c) == |a|
    decreases |a|
  {
    if a != [] {
      assert (a + [c] + b)[1..] == a[1..] + [c] + b;
      IndexOfAfter(a[1..], c, b);
    }
  }

  lemma SplitAfterFirst(a: string, sep: char, b: string)
    requires sep !in a
    ensures Split(a + [sep] + b, sep) == [a] + Split(b, sep)
  {
    var s := a + [sep] + b;
    assert s[|a|] == sep;
    IndexOfAfter(a, sep, b);
    assert s[..|a|] == a && s[|a| + 1..] == b;
  }

  lemma {:induction false} SplitJoin(parts: seq<string>, sep: char)
    requires |parts| >= 1
    requires forall i :: 0 <= i < |parts| ==> sep !in parts[i]
    ensures Split(Join(parts, sep), sep) == parts
    decreases |parts|
  {
    if |parts| > 1 {
      var rest := Join(parts[1..], sep);
      assert Join(parts, sep) == parts[0] + [sep] + rest;
      assert Split(rest, sep) == parts[1..] by {
        SplitJoin(parts[1..], sep);
      }
      assert Split(parts[0] + [sep] + rest, sep) == [parts[0]] + Split(rest, sep) by {
        SplitAfterFirst(parts[0], sep, rest);
      }
      assert [parts[0]] + parts[1..] == parts;
    }
  }

  /** The serializer: `name=value` for each pair, names and values escaped, joined by `&`. */
  function EncodePair(p: Pair, esc: string -> string): string
  {
    esc(p.0) + "=" + esc(p.1)
  }

  function Serialize(pairs: seq<Pair>, esc: string -> string): string
  {
    Join(seq(|pairs|, i requires 0 <= i < |pairs| => EncodePair(pairs[i], esc)), '&')
  }

  /** The serialized list is empty exactly when there are no pairs, since every pair
      carries its `=`. */
  lemma SerializeEmpty(pairs: seq<Pair>, esc: string -> string)
    ensures Serialize(pairs, esc) == "" <==> pairs == []
  {
    if pairs != [] {
      var parts := seq(|pairs|, i requires 0 <= i < |pairs| => EncodePair(pairs[i], esc));
      assert parts[0] == esc(pairs[0].0) + "=" + esc(pairs[0].1);
      assert |Join(parts, '&')| >= |parts[0]| > 0;
    }
  }

  /** The parser's treatment of one non-empty `&`-separated piece: split at the first `=`. */
  function DecodePiece(piece: string, unesc: string -> string): Pair
  {
    if '=' in piece then
      var i := IndexOf(piece, '=');
      (unesc(piece[..i]), unesc(piece[i + 1..]))
    else (unesc(piece), unesc(""))
  }

  /** The parser: cut at `&`, skip empty pieces, decode the others. */
  function DecodePieces(pieces: seq<string>, unesc: string -> string): seq<Pair>
  {
    if pieces == [] then []
    else (if pieces[0] == "" then [] else [DecodePiece(pieces[0], unesc)]) + DecodePieces(pieces[1..], unesc)
  }

  function Parse(query: string, unesc: string -> string): seq<Pair>
  {
    DecodePieces(Split(query, '&'), unesc)
  }

  /** What the escaping must guarantee: no `&` or `=` in its output, and `unesc` undoes it. */
  ghost predicate EscapeInvertible(esc: string -> string, unesc: string -> string)
  {
    (forall s :: '&' !in esc(s) && '=' !in esc(s)) && (forall s :: unesc(esc(s)) == s)
  }

  lemma {:induction false} DecodeEncoded(pairs: seq<Pair>, esc: string -> string, unesc: string -> string)
    requires EscapeInvertible(esc, unesc)
    ensures DecodePieces(seq(|pairs|, i requires 0 <= i < |pairs| => EncodePair(pairs[i], esc)), unesc) == pairs
    decreases |pairs|
  {
    var enc := seq(|pairs|, i requires 0 <= i < |pairs| => EncodePair(pairs[i], esc));
    if pairs != [] {
      assert enc[0] == EncodePair(pairs[0], esc);
      DecodePair(pairs[0], esc, unesc);
      assert enc[1..] == seq(|pairs[1..]|, i requires 0 <= i < |pairs[1..]| => EncodePair(pairs[1..][i], esc));
      DecodeEncoded(pairs[1..], esc, unesc);
      assert pairs == [pairs[0]] + pairs[1..];
    }
  }

  /** One encoded pair is a non-empty piece that decodes back to the pair. */
  lemma DecodePair(p: Pair, esc: string -> string, unesc: string -> string)
    requires EscapeInvertible(esc, unesc)
    ensures EncodePair(p, esc) != "" && DecodePiece(EncodePair(p, esc), unesc) == p
  {
    var e := EncodePair(p, esc);
    assert '=' !in esc(p.0);
    IndexOfAfter(esc(p.0), '=', esc(p.1));
    var k := IndexOf(e, '=');
    assert e[..k] == esc(p.0) && e[k + 1..] == esc(p.1);
  }

  /** Parsing the serialized pair list gives back exactly that list. */
  lemma ParseSerialize(pairs: seq<Pair>, esc: string -> string, unesc: string -> string)
    requires EscapeInvertible(esc, unesc)
    ensures Parse(Serialize(pairs, esc), unesc) == pairs
  {
    var enc := seq(|pairs|, i requires 0 <= i < |pairs| => EncodePair(pairs[i], esc));
    if pairs == [] {
      assert Split("", '&') == [""];
    } else {
      forall i | 0 <= i < |enc| ensures '&' !in enc[i] {
        assert enc[i] == esc(pairs[i].0) + "=" + esc(pairs[i].1);
      }
      SplitJoin(enc, '&');
      DecodeEncoded(pairs, esc, unesc);
    }
  }

  // ---------------------------------------------------------------------------
  // Reading a filter back out of the query string

  /** `URLSearchParams.getAll(k)`: every value stored under `k`, in list order. */
  function GetAll(pairs: seq<Pair>, k: string): seq<string>
  {
    if pairs == [] then [] else GetAll(pairs[..|pairs| - 1], k) + (if pairs[|pairs| - 1].0 == k then [pairs[|pairs| - 1].1] else [])
  }

  /** The strings a filter value stands for in the query: none, one, or one per element. */
  function ValueStrings(v: QueryParam): seq<string>
  {
    match v
    case Undefined => []
    case One(x) => [ScalarString(x)]
    case Many(items) => seq(|items|, i requires 0 <= i < |items| => ScalarString(items[i]))
  }

  lemma {:induction false} GetAllAppend(a: seq<Pair>, b: seq<Pair>, k: string)
    ensures GetAll(a + b, k) == GetAll(a, k) + GetAll(b, k)
    decreases |b|
  {
    if b == [] {
      assert a + b == a;
    } else {
      assert (a + b)[..|a + b| - 1] == a + b[..|b| - 1];
      GetAllAppend(a, b[..|b| - 1], k);
    }
  }

  lemma {:induction false} GetAllRepeatKey(k': string, items: seq<Scalar>, k: string)
    ensures GetAll(RepeatKey(k', items), k) == (if k' == k then ValueStrings(Many(items)) else [])
    decreases |items|
  {
    if items != [] {
      var init := items[..|items| - 1];
      var last := ScalarString(items[|items| - 1]);
      assert RepeatKey(k', items) == RepeatKey(k', init) + [(k', last)];
      assert GetAll(RepeatKey(k', items), k) == GetAll(RepeatKey(k', init), k) + GetAll([(k', last)], k) by {
        GetAllAppend(RepeatKey(k', init), [(k', last)], k);
      }
      assert GetAll([(k', last)], k) == (if k' == k then [last] else []) by {
        assert GetAll([(k', last)], k) == GetAll([], k) + (if k' == k then [last] else []);
      }
      GetAllRepeatKey(k', init, k);
      if k' == k {
        assert ValueStrings(Many(items)) == ValueStrings(Many(init)) + [last];
      }
    }
  }

  lemma GetAllEntry(k': string, v: QueryParam, k: string)
    ensures GetAll(EntryPairs(k', v), k) == (if k' == k then ValueStrings(v) else [])
  {
    match v
    case Undefined =>
    case One(x) =>
      assert GetAll([(k', ScalarString(x))], k) == GetAll([], k) + (if k' == k then [ScalarString(x)] else []);
    case Many(items) => GetAllRepeatKey(k', items, k);
  }

  /** The keys of a filter record, in entry order. */
  function Keys(es: Entries): seq<string>
  {
    seq(|es|, i requires 0 <= i < |es| => es[i].0)
  }

  lemma {:induction false} GetAllFilterPairs(es: Entries, k: string)
    requires NoDuplicates(Keys(es))
    ensures k !in Keys(es) ==> GetAll(FilterPairs(es), k) == []
    ensures forall i :: 0 <= i < |es| && es[i].0 == k ==> GetAll(FilterPairs(es), k) == ValueStrings(es[i].1)
    decreases |es|
  {
    if es != [] {
      var init := es[..|es| - 1];
      var last := es[|es| - 1];
      assert Keys(init) == Keys(es)[..|es| - 1];
      GetAllFilterPairs(init, k);
      GetAllAppend(FilterPairs(init), EntryPairs(last.0, last.1), k);
      GetAllEntry(last.0, last.1, k);
      if last.0 == k {
        assert k !in Keys(init) by {
          forall j | 0 <= j < |init| ensures Keys(init)[j] != k {
            assert Keys(es)[j] != Keys(es)[|es| - 1];
          }
        }
      }
      forall i | 0 <= i < |es| && es[i].0 == k
        ensures GetAll(FilterPairs(es), k) == ValueStrings(es[i].1)
      {
        if i < |es| - 1 {
          assert Keys(es)[i] != Keys(es)[|es| - 1];
          assert init[i] == es[i];
        }
      }
      if k !in Keys(es) {
        assert k !in Keys(init) by {
          forall j | 0 <= j < |init| ensures Keys(init)[j] != k {
            assert Keys(init)[j] == Keys(es)[j];
          }
        }
        assert Keys(es)[|es| - 1] == last.0;
      }
    }
  }

  /** The value of the first entry under `k`, and `undefined` when there is none. */
  function EntryValue(es: Entries, k: string): (r: QueryParam)
    ensures k !in Keys(es) ==> r == Undefined
    ensures k in Keys(es) ==> exists i :: 0 <= i < |es| && es[i].0 == k && r == es[i].1 &&
                                 (forall j :: 0 <= j < i ==> es[j].0 != k)
    decreases |es|
  {
    if es == [] then Undefined
    else if es[0].0 == k then
      assert Keys(es)[0] == k;
      es[0].1
    else
      assert Keys(es) == [es[0].0] + Keys(es[1..]);
      var r := EntryValue(es[1..], k);
      assert k in Keys(es) ==> exists i :: 0 <= i < |es| && es[i].0 == k && r == es[i].1 &&
                                 (forall j :: 0 <= j < i ==> es[j].0 != k) by {
        if k in Keys(es) {
          var m :| 0 <= m < |es[1..]| && es[1..][m].0 == k && r == es[1..][m].1 &&
                   (forall j :: 0 <= j < m ==> es[1..][j].0 != k);
          assert es[m + 1] == es[1..][m];
          forall j | 0 <= j < m + 1 ensures es[j].0 != k {
            if j > 0 {
              assert es[j] == es[1..][j - 1];
            }
          }
        }
      }
      r
  }

  /** What `getAll(k)` finds among the pagination pairs: the page number under `page`, the
      page size under `limit`, nothing otherwise. */
  function PaginationValues(pagination: Option<Pagination>, k: string): seq<string>
  {
    match pagination
    case None => []
    case Some(p) =>
      if k == "page" then [NumString(p.currentPage)]
      else if k == "limit" then [NumString(p.pageSize)]
      else []
  }

  lemma GetAllPagination(pagination: Option<Pagination>, k: string)
    ensures GetAll(PaginationPairs(pagination), k) == PaginationValues(pagination, k)
  {
    if pagination.Some? {
      var pairs := PaginationPairs(pagination);
      var first := [pairs[0]];
      assert pairs[..1] == first && first[..0] == [];
      assert GetAll(first, k) == (if k == "page" then [pairs[0].1] else []) by {
        assert GetAll(first, k) == GetAll([], k) + (if first[0].0 == k then [first[0].1] else []);
      }
      assert GetAll(pairs, k) == GetAll(first, k) + (if k == "limit" then [pairs[1].1] else []);
    }
  }

  /**
   * The round-trip law of the query encoding: after serializing the pagination and a
   * filter record with distinct keys and parsing the query string, `getAll(k)` gives
   * `page` and `limit` their numbers, followed by the strings of the filter under the
   * same key, if any; any other key gets back exactly the strings of its filter value,
   * and nothing when it is absent or `undefined`.
   */
  lemma FilterRoundTrip(pagination: Option<Pagination>, es: Entries, esc: string -> string, unesc: string -> string, k: string)
    requires EscapeInvertible(esc, unesc)
    requires NoDuplicates(Keys(es))
    ensures GetAll(Parse(Serialize(SearchPairs(pagination, Some(es)), esc), unesc), k)
            == PaginationValues(pagination, k) + ValueStrings(EntryValue(es, k))
  {
    ParseSerialize(SearchPairs(pagination, Some(es)), esc, unesc);
    assert GetAll(SearchPairs(pagination, Some(es)), k) == GetAll(PaginationPairs(pagination), k) + GetAll(FilterPairs(es), k) by {
      GetAllAppend(PaginationPairs(pagination), FilterPairs(es), k);
    }
    GetAllPagination(pagination, k);
    assert GetAll(FilterPairs(es), k) == ValueStrings(EntryValue(es, k)) by {
      GetAllFilterPairs(es, k);
    }
  }

  // ---------------------------------------------------------------------------
  // Request URLs

  /** `qs ? `${url}?${qs}` : url` of the list and paginated queries. */
  function ListUrl(url: string, qs: string): (r: string)
    ensures qs == "" ==> r == url
    ensures qs != "" ==> IsPrefix(url + "?", r) && r[|url| + 1..] == qs
  {
    if qs == "" then url else url + "?" + qs
  }

  /** `${url}/export${qs ? `?${qs}` : ''}` of the export request. */
  function ExportUrl(url: string, qs: string): (r: string)
    ensures IsPrefix(url + "/export", r)
    ensures qs == "" <==> r == url + "/export"
    ensures qs != "" ==> r[|url| + 7] == '?' && r[|url| + 8..] == qs
  {
    url + "/export" + (if qs == "" then "" else "?" + qs)
  }
}
