/**
 * The generic data table: the local row search, the page count, the client-side page
 * slice, and the page/page-size state with its navigation handlers.
 */
module Table {
  import opened Common
  import CrudQuery
  import PageItems

  // ---------------------------------------------------------------------------
  // Rows and the local search

  /** A cell value: `null`, a scalar, a plain object, an array of cells, or a date. A key
      missing from the row is `undefined`. A date carries the text its `toString` gives. */
  datatype Cell =
    | NullCell
    | ScalarCell(value: CrudQuery.Scalar)
    | ObjectCell
    | ArrayCell(items: seq<Cell>)
    | DateCell(text: string)

  type Row = map<string, Cell>

  /** `String(c)`: a scalar's string, `[object Object]` for a plain object, the items'
      strings joined by `,` for an array (`null` items giving the empty string), and the
      date's own text. */
  function CellString(c: Cell): (r: string)
    ensures c.NullCell? ==> r == ""
    ensures c.ScalarCell? && c.value.Str? ==> r == c.value.s
    ensures c.ScalarCell? && c.value.Num? ==> r == CrudQuery.NumString(c.value.n)
    ensures c.ScalarCell? && c.value.Bool? ==> r == (if c.value.b then "true" else "false")
    ensures c.ObjectCell? ==> r == "[object Object]"
    ensures c.DateCell? ==> r == c.text
    ensures c.ArrayCell? && c.items == [] ==> r == ""
    decreases c
  {
    match c
    case NullCell => ""
    case ScalarCell(v) => CrudQuery.ScalarString(v)
    case ObjectCell => "[object Object]"
    case ArrayCell(items) => CrudQuery.Join(ItemStrings(items), ',')
    case DateCell(text) => text
  }

  /** The strings of an array's items, in order. */
  function ItemStrings(items: seq<Cell>): (r: seq<string>)
    ensures |r| == |items|
    ensures forall i :: 0 <= i < |items| ==> r[i] == CellString(items[i])
    decreases items
  {
    if items == [] then []
    else
      assert items[0] in items;
      [CellString(items[0])] + ItemStrings(items[1..])
  }

  /** An array cell's text cut at `,` gives back each item's string, when no item's string
      holds a comma itself. */
  lemma ArrayCellItems(items: seq<Cell>)
    requires |items| >= 1
    requires forall i :: 0 <= i < |items| ==> ',' !in CellString(items[i])
    ensures CrudQuery.Split(CellString(ArrayCell(items)), ',') == ItemStrings(items)
  {
    CrudQuery.SplitJoin(ItemStrings(items), ',');
  }

  /** `String(row[k] ?? '')`: the empty string for a missing or `null` cell, and the
      cell's string otherwise. */
  function CellText(row: Row, k: string): (r: string)
    ensures (k !in row || row[k] == NullCell) ==> r == ""
    ensures k in row ==> r == CellString(row[k])
  {
    if k in row then CellString(row[k]) else ""
  }

  /** The characters `String.prototype.trim` removes: white space and line terminators. */
  predicate IsJsWhitespace(c: char)
  {
    || c == '\t' || c == '\n' || c == '\U{000B}' || c == '\U{000C}' || c == '\r' || c == ' '
    || c == '\U{00A0}' || c == '\U{1680}' || ('\U{2000}' <= c <= '\U{200A}')
    || c == '\U{2028}' || c == '\U{2029}' || c == '\U{202F}' || c == '\U{205F}' || c == '\U{3000}'
    || c == '\U{FEFF}'
  }

  predicate AllWhitespace(s: string)
  {
    forall i :: 0 <= i < |s| ==> IsJsWhitespace(s[i])
  }

  /** Drops the leading white space: what is left is a suffix of `s`, everything dropped
      was white space, and what is left does not start with white space. */
  function TrimStart(s: string): (r: string)
    ensures |r| <= |s| && r == s[|s| - |r|..]
    ensures AllWhitespace(s[..|s| - |r|])
    ensures r == [] || !IsJsWhitespace(r[0])
    decreases |s|
  {
    if s != [] && IsJsWhitespace(s[0]) then TrimStart(s[1..]) else s
  }

  /** Drops the trailing white space, symmetrically. */
  function TrimEnd(s: string): (r: string)
    ensures |r| <= |s| && r == s[..|r|]
    ensures AllWhitespace(s[|r|..])
    ensures r == [] || !IsJsWhitespace(r[|r| - 1])
    decreases |s|
  {
    if s != [] && IsJsWhitespace(s[|s| - 1]) then
      var r := TrimEnd(s[..|s| - 1]);
      assert s[..|s| - 1][..|r|] == s[..|r|];
      assert s[|r|..] == s[..|s| - 1][|r|..] + [s[|s| - 1]];
      r
    else s
  }

  function Trim(s: string): string
  {
    TrimEnd(TrimStart(s))
  }

  /** `!q.trim()`: the query is blank exactly when it is all white space. */
  lemma TrimBlankIffWhitespace(s: string)
    ensures Trim(s) == [] <==> AllWhitespace(s)
  {
    var a := TrimStart(s);
    assert a != [] ==> a[0] == s[|s| - |a|];
    if Trim(s) == [] {
      assert a[|TrimEnd(a)|..] == a;
      assert a == [];
      assert s[..|s|] == s;
    }
  }

  /** Trimming twice is trimming once. */
  lemma TrimIdempotent(s: string)
    ensures Trim(Trim(s)) == Trim(s)
  {
    var t := Trim(s);
    if t != [] {
      assert t[0] == TrimStart(s)[0];
      assert TrimStart(t) == t;
    }
  }

  function LowerChar(c: char): char
  {
    if 'A' <= c <= 'Z' then (c as int + 32) as char else c
  }

  /** `toLowerCase`, restricted to the ASCII letters. */
  function ToLower(s: string): (r: string)
    ensures |r| == |s|
    ensures forall i :: 0 <= i < |s| ==> r[i] == LowerChar(s[i])
  {
    seq(|s|, i requires 0 <= i < |s| => LowerChar(s[i]))
  }

  /** White space has no case, so trimming and lower-casing commute. */
  lemma TrimLowerCommute(s: string)
    ensures Trim(ToLower(s)) == ToLower(Trim(s))
  {
    TrimStartLower(s);
    TrimEndLower(TrimStart(s));
  }

  lemma {:induction false} TrimStartLower(s: string)
    ensures TrimStart(ToLower(s)) == ToLower(TrimStart(s))
    decreases |s|
  {
    if s != [] {
      var l := ToLower(s);
      LowerKeepsWhitespace(s[0]);
      assert l[0] == LowerChar(s[0]);
      assert l[1..] == ToLower(s[1..]);
      if IsJsWhitespace(s[0]) {
        assert TrimStart(l) == TrimStart(l[1..]);
        TrimStartLower(s[1..]);
      } else {
        assert TrimStart(l) == l;
      }
    }
  }

  lemma {:induction false} TrimEndLower(s: string)
    ensures TrimEnd(ToLower(s)) == ToLower(TrimEnd(s))
    decreases |s|
  {
    if s != [] {
      var l := ToLower(s);
      LowerKeepsWhitespace(s[|s| - 1]);
      assert l[|s| - 1] == LowerChar(s[|s| - 1]);
      assert l[..|s| - 1] == ToLower(s[..|s| - 1]);
      if IsJsWhitespace(s[|s| - 1]) {
        assert TrimEnd(l) == TrimEnd(l[..|s| - 1]);
        TrimEndLower(s[..|s| - 1]);
      } else {
        assert TrimEnd(l) == l;
      }
    }
  }

  /** Lower-casing neither creates nor removes white space. */
  lemma LowerKeepsWhitespace(c: char)
    ensures IsJsWhitespace(LowerChar(c)) <==> IsJsWhitespace(c)
  {
  }

  /** Some search key's cell text, lower-cased, contains the (already lower-cased) query. */
  predicate RowMatches(row: Row, keys: seq<string>, q: string)
  {
    exists i :: 0 <= i < |keys| && Contains(ToLower(CellText(row, keys[i])), q)
  }

  /** `data.filter(row => localSearchKeys.some(...))`. */
  function FilterRows(data: seq<Row>, keys: seq<string>, q: string): seq<Row>
  {
    if data == [] then []
    else (if RowMatches(data[0], keys, q) then [data[0]] else []) + FilterRows(data[1..], keys, q)
  }

  /** No search keys, or a blank query, leave the data alone. */
  predicate SearchInactive(keys: Option<seq<string>>, query: string)
  {
    keys.None? || keys.value == [] || Trim(query) == []
  }

  /** `searchedData`. */
  function SearchedData(data: seq<Row>, keys: Option<seq<string>>, query: string): (r: seq<Row>)
    ensures SearchInactive(keys, query) ==> r == data
    ensures !SearchInactive(keys, query) ==> r == FilterRows(data, keys.value, ToLower(Trim(query)))
  {
    if SearchInactive(keys, query) then data
    else FilterRows(data, keys.value, ToLower(Trim(query)))
  }

  /** The filter keeps, in their original order, exactly the rows that match, each as
      many times as it occurs. */
  lemma {:induction false} FilterRowsSpec(data: seq<Row>, keys: seq<string>, q: string)
    ensures IsSubsequence(FilterRows(data, keys, q), data)
    ensures forall row :: row in FilterRows(data, keys, q) <==> row in data && RowMatches(row, keys, q)
    ensures forall row :: multiset(FilterRows(data, keys, q))[row] == if RowMatches(row, keys, q) then multiset(data)[row] else 0
    decreases |data|
  {
    if data != [] {
      var rest := FilterRows(data[1..], keys, q);
      FilterRowsSpec(data[1..], keys, q);
      var head: seq<Row> := if RowMatches(data[0], keys, q) then [data[0]] else [];
      assert FilterRows(data, keys, q) == head + rest;
      if RowMatches(data[0], keys, q) {
        assert (head + rest)[1..] == rest;
      } else {
        assert head + rest == rest;
        SubsequenceOfTail(rest, data);
      }
      assert data == [data[0]] + data[1..];
      assert multiset(data) == multiset([data[0]]) + multiset(data[1..]);
      assert multiset(head + rest) == multiset(head) + multiset(rest);
    }
  }

  /** The search ignores the case of the query. */
  lemma SearchIgnoresQueryCase(data: seq<Row>, keys: Option<seq<string>>, query: string)
    ensures SearchedData(data, keys, ToLower(query)) == SearchedData(data, keys, query)
  {
    TrimLowerCommute(query);
    LowerIdempotent(Trim(query));
    assert |Trim(ToLower(query))| == |Trim(query)|;
  }

  /** The search ignores the white space around the query. */
  lemma SearchIgnoresQueryPadding(data: seq<Row>, keys: Option<seq<string>>, query: string)
    ensures SearchedData(data, keys, Trim(query)) == SearchedData(data, keys, query)
  {
    TrimIdempotent(query);
  }

  lemma LowerIdempotent(s: string)
    ensures ToLower(ToLower(s)) == ToLower(s)
  {
  }

  // ---------------------------------------------------------------------------
  // Page count and the client-side slice

  /** `Math.max(1, Math.ceil(totalItems / (effectiveSize || 1)))`: the least number of
      pages of the divisor's size that hold every item, and never fewer than one. */
  function TotalPages(totalItems: nat, size: nat): (r: nat)
    ensures r >= 1
    ensures var d := if size == 0 then 1 else size;
      (totalItems == 0 ==> r == 1) && (totalItems > 0 ==> (r - 1) * d < totalItems <= r * d)
  {
    var d := if size == 0 then 1 else size;
    var pages := (totalItems + d - 1) / d;
    if pages < 1 then 1 else pages
  }

  /** How `Array.prototype.slice` turns an argument into an index. */
  function SliceIndex(i: int, len: nat): (r: nat)
    ensures r <= len
  {
    if i < 0 then (if len + i < 0 then 0 else len + i) else if i > len then len else i
  }

  /** `s.slice(start, end)`. */
  function JsSlice<T>(s: seq<T>, start: int, end: int): (r: seq<T>)
    ensures 0 <= start <= end ==>
              |r| == (if end <= |s| then end else |s|) - (if start <= |s| then start else |s|)
    ensures 0 <= start ==> forall k :: 0 <= k < |r| ==> start + k < |s| && r[k] == s[start + k]
  {
    var a := SliceIndex(start, |s|);
    var b := SliceIndex(end, |s|);
    if a < b then s[a..b] else []
  }

  /** The rows of page `page` in client mode. */
  function ClientRows(data: seq<Row>, page: int, size: nat): seq<Row>
  {
    JsSlice(data, (page - 1) * size, page * size)
  }

  /** A client page holds at most `size` rows, and they are the rows of the data that
      follow the `(page - 1) * size` rows of the earlier pages. */
  lemma ClientRowsWindow(data: seq<Row>, page: int, size: nat)
    requires page >= 1
    ensures |ClientRows(data, page, size)| <= size
    ensures forall k :: 0 <= k < |ClientRows(data, page, size)| ==>
              var i := (page - 1) * size + k; i < |data| && ClientRows(data, page, size)[k] == data[i]
  {
    assert (page - 1) * size >= 0;
    assert page * size == (page - 1) * size + size;
  }

  /** Every row shows up on exactly one valid client page: row `i` is row `i % size` of
      page `i / size + 1`, and that page is within the page count. */
  lemma EveryRowOnSomePage(data: seq<Row>, size: nat, i: nat)
    requires size > 0 && i < |data|
    ensures var p := i / size + 1;
      && 1 <= p <= TotalPages(|data|, size)
      && i % size < |ClientRows(data, p, size)|
      && ClientRows(data, p, size)[i % size] == data[i]
  {
    var p := i / size + 1;
    var m := i % size;
    assert (p - 1) * size + m == i && m < size by {
      assert p - 1 == i / size;
    }
    RowOfPage(data, p, size, m, i);
    PageWithinCount(|data|, size, i);
  }

  /** The page of item `i` is one of the `TotalPages` pages. */
  lemma PageWithinCount(n: nat, size: nat, i: nat)
    requires size > 0 && i < n
    ensures 1 <= i / size + 1 <= TotalPages(n, size)
  {
    var q := i / size;
    var r := TotalPages(n, size);
    assert q * size <= i;
    assert n <= r * size;
    PageBelowCount(q, r, size);
  }

  /** Row `m` of client page `page` is the data row `(page - 1) * size + m`, when there is one. */
  lemma RowOfPage(data: seq<Row>, page: int, size: nat, m: nat, i: nat)
    requires page >= 1 && m < size && i == (page - 1) * size + m && i < |data|
    ensures m < |ClientRows(data, page, size)|
    ensures ClientRows(data, page, size)[m] == data[i]
  {
    var lo := (page - 1) * size;
    assert page * size == lo + size;
    assert 0 <= lo;
    var rows := ClientRows(data, page, size);
    assert |rows| == (if lo + size <= |data| then lo + size else |data|) - lo;
  }

  lemma PageBelowCount(q: int, r: int, size: nat)
    requires size > 0 && q * size < r * size
    ensures q < r
  {
    assert (r - q) * size > 0;
  }

  // ---------------------------------------------------------------------------
  // The table's state

  datatype Mode = ClientPaging | ServerPaging | NoPaging

  /** A call the table makes to the parent's optional callbacks. */
  datatype Event = PageChange(page: int) | PageSizeChange(size: nat) | Search(query: string)

  /** One mounted table: its props (fixed) and its state (`clientPage`, `clientSize`, the
      settled search text), with the callbacks it has made so far. */
  class TableState {
    const mode: Mode
    const data: seq<Row>
    const searchKeys: Option<seq<string>>
    const total: Option<nat>
    const page: Option<int>
    const pageSize: Option<nat>
    const sizeOptions: seq<nat>
    const hasPageChange: bool
    const hasPageSizeChange: bool
    const hasSearch: bool

    var query: string
    var clientPage: int
    var clientSize: nat
    var events: seq<Event>

    /** The first size option, or 0 when there is none (an `undefined` size behaves as 0
        in both the page count and the slice). */
    function FirstSizeOption(): nat
      reads this
    {
      if sizeOptions == [] then 0 else sizeOptions[0]
    }

    /** The client page only ever holds a page number of at least 1. */
    predicate Valid()
      reads this
    {
      clientPage >= 1
    }

    constructor (mode: Mode, data: seq<Row>, searchKeys: Option<seq<string>>, total: Option<nat>,
                 page: Option<int>, pageSize: Option<nat>, sizeOptions: seq<nat>,
                 hasPageChange: bool, hasPageSizeChange: bool, hasSearch: bool)
      ensures this.mode == mode && this.data == data && this.searchKeys == searchKeys
      ensures this.total == total && this.page == page && this.pageSize == pageSize
      ensures this.sizeOptions == sizeOptions
      ensures this.hasPageChange == hasPageChange && this.hasPageSizeChange == hasPageSizeChange
      ensures this.hasSearch == hasSearch
      ensures query == "" && clientPage == 1 && clientSize == FirstSizeOption() && events == []
      ensures Valid()
    {
      this.mode := mode;
      this.data := data;
      this.searchKeys := searchKeys;
      this.total := total;
      this.page := page;
      this.pageSize := pageSize;
      this.sizeOptions := sizeOptions;
      this.hasPageChange := hasPageChange;
      this.hasPageSizeChange := hasPageSizeChange;
      this.hasSearch := hasSearch;
      query := "";
      clientPage := 1;
      clientSize := if sizeOptions == [] then 0 else sizeOptions[0];
      events := [];
    }

    function Searched(): seq<Row>
      reads this
    {
      SearchedData(data, searchKeys, query)
    }

    /** The page shown: the parent's `page` (by default 1) in server mode, the table's own
        page otherwise. */
    function EffectivePage(): (r: int)
      reads this
      ensures mode == ServerPaging && page.Some? ==> r == page.value
      ensures mode == ServerPaging && page.None? ==> r == 1
      ensures mode != ServerPaging ==> r == clientPage
    {
      if mode == ServerPaging then (if page.Some? then page.value else 1) else clientPage
    }

    /** The page size: the parent's `pageSize` (by default the first option) in server
        mode, the table's own size otherwise. */
    function EffectiveSize(): (r: nat)
      reads this
      ensures mode == ServerPaging && pageSize.Some? ==> r == pageSize.value
      ensures mode == ServerPaging && pageSize.None? ==> r == FirstSizeOption()
      ensures mode != ServerPaging ==> r == clientSize
    {
      if mode == ServerPaging then (if pageSize.Some? then pageSize.value else FirstSizeOption())
      else clientSize
    }

    /** The number of items paged over: the server's `total` (by default the rows at hand)
        in server mode, the searched rows otherwise. */
    function TotalItems(): (r: nat)
      reads this
      ensures mode == ServerPaging && total.Some? ==> r == total.value
      ensures mode == ServerPaging && total.None? ==> r == |data|
      ensures mode != ServerPaging ==> r == |Searched()|
    {
      if mode == ServerPaging then (if total.Some? then total.value else |data|) else |Searched()|
    }

    /** `totalPages`: at least one page, and the least number of pages of the effective
        size (a size of 0 counting as 1) that hold every item. */
    function PageCount(): (r: nat)
      reads this
      ensures r >= 1
      ensures var d := if EffectiveSize() == 0 then 1 else EffectiveSize();
        TotalItems() <= r * d && (TotalItems() > 0 ==> (r - 1) * d < TotalItems())
    {
      TotalPages(TotalItems(), EffectiveSize())
    }

    /** The rows on screen: the client page's slice (see `ClientRowsWindow`), or the
        searched data as it is. */
    function Rows(): seq<Row>
      reads this
    {
      if mode == ClientPaging then ClientRows(Searched(), clientPage, clientSize) else Searched()
    }

    /** `goToPage(p)`: out-of-range pages are ignored; otherwise the server is told, or
        the client page moves. */
    method GoToPage(p: int)
      requires Valid()
      modifies this
      ensures Valid()
      ensures p < 1 || p > old(PageCount()) ==> unchanged(this)
      ensures 1 <= p <= old(PageCount()) && mode == ServerPaging ==>
                && events == old(events) + (if hasPageChange then [PageChange(p)] else [])
                && clientPage == old(clientPage)
      ensures 1 <= p <= old(PageCount()) && mode != ServerPaging ==>
                clientPage == p && events == old(events)
      ensures clientSize == old(clientSize) && query == old(query)
    {
      if p < 1 || p > PageCount() {
        return;
      }
      if mode == ServerPaging {
        if hasPageChange {
          events := events + [PageChange(p)];
        }
      } else {
        clientPage := p;
      }
    }

    method HandlePrev()
      requires Valid()
      modifies this
      ensures Valid()
      ensures var p := old(EffectivePage()) - 1;
        && (p < 1 || p > old(PageCount()) ==> unchanged(this))
        && (1 <= p <= old(PageCount()) && mode != ServerPaging ==> clientPage == p && events == old(events))
        && (1 <= p <= old(PageCount()) && mode == ServerPaging ==>
              clientPage == old(clientPage) && events == old(events) + (if hasPageChange then [PageChange(p)] else []))
      ensures clientSize == old(clientSize) && query == old(query)
    {
      GoToPage(EffectivePage() - 1);
    }

    method HandleNext()
      requires Valid()
      modifies this
      ensures Valid()
      ensures var p := old(EffectivePage()) + 1;
        && (p < 1 || p > old(PageCount()) ==> unchanged(this))
        && (1 <= p <= old(PageCount()) && mode != ServerPaging ==> clientPage == p && events == old(events))
        && (1 <= p <= old(PageCount()) && mode == ServerPaging ==>
              clientPage == old(clientPage) && events == old(events) + (if hasPageChange then [PageChange(p)] else []))
      ensures clientSize == old(clientSize) && query == old(query)
    {
      GoToPage(EffectivePage() + 1);
    }

    /** `handleSizeChange(n)`: the new size always comes with a return to page 1. */
    method HandleSizeChange(n: nat)
      requires Valid()
      modifies this
      ensures Valid()
      ensures mode == ServerPaging ==>
                && events == old(events) + (if hasPageSizeChange then [PageSizeChange(n)] else [])
                                         + (if hasPageChange then [PageChange(1)] else [])
                && clientPage == old(clientPage) && clientSize == old(clientSize)
      ensures mode != ServerPaging ==> clientSize == n && clientPage == 1 && events == old(events)
      ensures query == old(query)
    {
      if mode == ServerPaging {
        if hasPageSizeChange {
          events := events + [PageSizeChange(n)];
        }
        if hasPageChange {
          events := events + [PageChange(1)];
        }
      } else {
        clientSize := n;
        clientPage := 1;
      }
    }

    /** The debounced search text settles on `q`: when it changed, the parent's `onSearch`
        hears of it and client paging returns to page 1. */
    method SettleQuery(q: string)
      requires Valid()
      modifies this
      ensures Valid()
      ensures q == old(query) ==> unchanged(this)
      ensures q != old(query) ==>
                && query == q
                && events == old(events) + (if hasSearch then [Search(q)] else [])
                && clientPage == (if mode == ClientPaging then 1 else old(clientPage))
                && clientSize == old(clientSize)
    {
      if q == query {
        return;
      }
      query := q;
      if hasSearch {
        events := events + [Search(q)];
      }
      if mode == ClientPaging {
        clientPage := 1;
      }
    }

    /** `numberItems`: the page list when paging is on, nothing otherwise. */
    method NumberItems() returns (items: seq<PageItems.PageItem>)
      ensures mode == NoPaging ==> items == []
      ensures mode != NoPaging && PageCount() == 1 ==> items == [PageItems.Page(1)]
      ensures mode != NoPaging && PageCount() > 1 ==>
                var s := PageItems.Numbers(items);
                && PageItems.StrictlyIncreasing(s)
                && (forall p :: p in s <==> PageItems.InPageSet(p, EffectivePage(), PageCount(), 1))
                && items == PageItems.Ellipsize(s)
    {
      if mode == NoPaging {
        return [];
      }
      items := PageItems.BuildPageItems(EffectivePage(), PageCount(), 1);
    }
  }
}
