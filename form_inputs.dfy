/**
 * The value handling inside the form input components: the multi-select's toggle and
 * its label list, the slider's value normalisation, and the combobox's selected option.
 */
module FormInputs {
  import opened Common

  datatype SelectOption = SelectOption(value: string, caption: string)

  /** A multi-select field's value: an array of strings, or anything else. */
  datatype SelectionField = Selected(values: seq<string>) | NotAList

  /** `Array.isArray(field.value) ? field.value : []`. */
  function SelectedValues(field: SelectionField): (r: seq<string>)
    ensures field.NotAList? ==> r == []
    ensures field.Selected? ==> r == field.values
  {
    if field.Selected? then field.values else []
  }

  // ---------------------------------------------------------------------------
  // The toggle

  /** Where `x` first occurs in `s`. */
  function FirstIndex(s: seq<string>, x: string): (i: nat)
    requires x in s
    ensures i < |s| && s[i] == x && x !in s[..i]
  {
    if s[0] == x then 0
    else
      var i := 1 + FirstIndex(s[1..], x);
      assert s[..i] == [s[0]] + s[1..][..i - 1];
      i
  }

  /** Appending an element leaves the first occurrences of the earlier ones where they were. */
  lemma FirstIndexAppend(s: seq<string>, y: string, x: string)
    requires x in s
    ensures FirstIndex(s + [y], x) == FirstIndex(s, x)
  {
    var i := FirstIndex(s + [y], x);
    var j := FirstIndex(s, x);
    assert (s + [y])[j] == x;
    assert i <= j;
    assert (s + [y])[..i] == s[..i];
    assert j <= i;
  }

  /** `new Set(values)` read back in iteration order: each value once, at its first
      occurrence (see `DedupeOrder`). */
  function Dedupe(values: seq<string>): (r: seq<string>)
    ensures NoDuplicates(r)
    ensures forall x :: x in r <==> x in values
    decreases |values|
  {
    if values == [] then []
    else
      var init := Dedupe(values[..|values| - 1]);
      var last := values[|values| - 1];
      assert forall x :: x in values <==> x in values[..|values| - 1] || x == last by {
        assert values == values[..|values| - 1] + [last];
      }
      if last in init then init else init + [last]
  }

  /** The values come out in the order of their first occurrences, as a `Set` iterates. */
  lemma {:induction false} DedupeOrder(values: seq<string>)
    ensures forall i, j :: 0 <= i < j < |Dedupe(values)| ==>
              FirstIndex(values, Dedupe(values)[i]) < FirstIndex(values, Dedupe(values)[j])
    decreases |values|
  {
    if values != [] {
      var front := values[..|values| - 1];
      var init := Dedupe(front);
      var last := values[|values| - 1];
      var r := Dedupe(values);
      assert values == front + [last];
      assert r == if last in init then init else init + [last];
      DedupeOrder(front);
      forall i, j | 0 <= i < j < |r| ensures FirstIndex(values, r[i]) < FirstIndex(values, r[j]) {
        assert r[i] == init[i];
        FirstIndexAppend(front, last, init[i]);
        if j < |init| {
          assert r[j] == init[j];
          FirstIndexAppend(front, last, init[j]);
        } else {
          assert r[j] == last;
          assert FirstIndex(values, last) == |front| by {
            assert values[..|front|] == front;
          }
        }
      }
    }
  }

  /** `set.delete(v)`: the sequence without `v`, the rest in their order. */
  function Remove(s: seq<string>, v: string): (r: seq<string>)
    ensures forall x :: x in r <==> x in s && x != v
    ensures NoDuplicates(s) ==> NoDuplicates(r)
    ensures v !in s ==> r == s
    ensures IsSubsequence(r, s)
    decreases |s|
  {
    if s == [] then []
    else
      var rest := Remove(s[1..], v);
      if s[0] == v then
        SubsequenceOfTail(rest, s);
        rest
      else
        assert NoDuplicates(s) ==> s[0] !in s[1..];
        assert ([s[0]] + rest)[1..] == rest;
        [s[0]] + rest
  }

  /** The new field value after toggling `v`: the values as a `Set`, with `v` deleted or added. */
  function Toggled(values: seq<string>, v: string): seq<string>
  {
    var distinct := Dedupe(values);
    if v in distinct then Remove(distinct, v) else distinct + [v]
  }

  /** `toggle(v)`: builds the set of the current values in a loop, then deletes `v` if it
      was selected and adds it otherwise. */
  method Toggle(field: SelectionField, v: string) returns (r: seq<string>)
    ensures r == Toggled(SelectedValues(field), v)
  {
    var values := SelectedValues(field);
    var distinct: seq<string> := [];
    var i := 0;
    while i < |values|
      invariant 0 <= i <= |values|
      invariant distinct == Dedupe(values[..i])
    {
      assert values[..i + 1][..i] == values[..i];
      if values[i] !in distinct {
        distinct := distinct + [values[i]];
      }
      i := i + 1;
    }
    assert values[..i] == values;
    if v in distinct {
      r := Remove(distinct, v);
    } else {
      r := distinct + [v];
    }
  }

  /** Toggling flips the membership of `v`, leaves every other value's membership alone,
      and never produces a duplicate. */
  lemma ToggleMembership(values: seq<string>, v: string)
    ensures v in Toggled(values, v) <==> v !in values
    ensures forall x :: x != v ==> (x in Toggled(values, v) <==> x in values)
    ensures NoDuplicates(Toggled(values, v))
  {
    var distinct := Dedupe(values);
    if v !in distinct {
      assert forall i, j :: 0 <= i < j < |distinct + [v]| ==> (distinct + [v])[i] != (distinct + [v])[j] by {
        forall i, j | 0 <= i < j < |distinct + [v]| ensures (distinct + [v])[i] != (distinct + [v])[j] {
          if j == |distinct| {
            assert (distinct + [v])[i] == distinct[i];
          }
        }
      }
    }
  }

  /** Toggling the same value twice selects the same values as before. */
  lemma ToggleTwice(values: seq<string>, v: string)
    ensures forall x :: x in Toggled(Toggled(values, v), v) <==> x in values
  {
    ToggleMembership(values, v);
    ToggleMembership(Toggled(values, v), v);
  }

  /** A value that was not selected, added and then removed again, leaves a duplicate-free
      selection exactly as it was, order included. */
  lemma ToggleTwiceRestoresOrder(values: seq<string>, v: string)
    requires NoDuplicates(values) && v !in values
    ensures Toggled(Toggled(values, v), v) == values
  {
    DedupeDistinct(values);
    var once := values + [v];
    assert Toggled(values, v) == once;
    ToggleMembership(values, v);
    DedupeDistinct(once);
    RemoveLast(values, v);
  }

  lemma {:induction false} DedupeDistinct(values: seq<string>)
    requires NoDuplicates(values)
    ensures Dedupe(values) == values
    decreases |values|
  {
    if values != [] {
      var init := values[..|values| - 1];
      DedupeDistinct(init);
      assert values[|values| - 1] !in init;
      assert init + [values[|values| - 1]] == values;
    }
  }

  lemma {:induction false} RemoveLast(s: seq<string>, v: string)
    requires v !in s
    ensures Remove(s + [v], v) == s
    decreases |s|
  {
    if s == [] {
      assert Remove([v], v) == Remove([], v);
    } else {
      assert (s + [v])[1..] == s[1..] + [v];
      RemoveLast(s[1..], v);
      assert [s[0]] + s[1..] == s;
    }
  }

  // ---------------------------------------------------------------------------
  // Labels, slider, combobox

  /** `options.filter(o => value.includes(o.value))`. */
  function SelectedOptions(options: seq<SelectOption>, values: seq<string>): seq<SelectOption>
  {
    if options == [] then []
    else (if options[0].value in values then [options[0]] else []) + SelectedOptions(options[1..], values)
  }

  /** `selectedLabels`: the labels of the selected options. */
  function SelectedLabels(options: seq<SelectOption>, values: seq<string>): (r: seq<string>)
    ensures |r| == |SelectedOptions(options, values)|
    ensures forall i :: 0 <= i < |r| ==> r[i] == SelectedOptions(options, values)[i].caption
  {
    var chosen := SelectedOptions(options, values);
    seq(|chosen|, i requires 0 <= i < |chosen| => chosen[i].caption)
  }

  /** The selected options are the options whose value is selected, in option order,
      each as many times as it occurs. */
  lemma {:induction false} SelectedOptionsSpec(options: seq<SelectOption>, values: seq<string>)
    ensures IsSubsequence(SelectedOptions(options, values), options)
    ensures forall o :: o in SelectedOptions(options, values) <==> o in options && o.value in values
    ensures forall o :: multiset(SelectedOptions(options, values))[o] == if o.value in values then multiset(options)[o] else 0
    decreases |options|
  {
    if options != [] {
      var rest := SelectedOptions(options[1..], values);
      SelectedOptionsSpec(options[1..], values);
      var head: seq<SelectOption> := if options[0].value in values then [options[0]] else [];
      assert SelectedOptions(options, values) == head + rest;
      if options[0].value in values {
        assert (head + rest)[1..] == rest;
      } else {
        assert head + rest == rest;
        SubsequenceOfTail(rest, options);
      }
      assert options == [options[0]] + options[1..];
      assert multiset(options) == multiset([options[0]]) + multiset(options[1..]);
      assert multiset(head + rest) == multiset(head) + multiset(rest);
    }
  }

  /** A slider field's value: an array of numbers, or a single (possibly missing) number. */
  datatype SliderField = Many(numbers: seq<int>) | Single(number: Option<int>)

  /** `Array.isArray(field.value) ? field.value : [field.value ?? min]`. */
  function SliderValue(field: SliderField, min: int): (r: seq<int>)
    ensures field.Many? ==> r == field.numbers
    ensures field.Single? ==> |r| == 1 && r[0] == (if field.number.Some? then field.number.value else min)
  {
    match field
    case Many(ns) => ns
    case Single(n) => [if n.Some? then n.value else min]
  }

  /** `options.find(o => o.value === field.value)`: the first option carrying the field's
      value. */
  function FindOption(options: seq<SelectOption>, value: Option<string>): (r: Option<SelectOption>)
    ensures r.None? <==> forall i :: 0 <= i < |options| ==> value != Some(options[i].value)
    ensures r.Some? ==> exists i :: 0 <= i < |options| && options[i] == r.value && value == Some(r.value.value) &&
                                    forall j :: 0 <= j < i ==> value != Some(options[j].value)
    decreases |options|
  {
    if options == [] then None
    else if value == Some(options[0].value) then Some(options[0])
    else
      var r := FindOption(options[1..], value);
      assert forall i :: 1 <= i < |options| ==> options[i] == options[1..][i - 1];
      assert r.Some? ==> exists i :: 0 <= i < |options| && options[i] == r.value && value == Some(r.value.value) &&
                                     forall j :: 0 <= j < i ==> value != Some(options[j].value) by {
        if r.Some? {
          var k :| 0 <= k < |options[1..]| && options[1..][k] == r.value && value == Some(r.value.value) &&
                   forall j :: 0 <= j < k ==> value != Some(options[1..][j].value);
          assert forall j :: 0 <= j < k + 1 ==> value != Some(options[j].value) by {
            forall j | 0 <= j < k + 1 ensures value != Some(options[j].value) {
              if j > 0 {
                assert options[j] == options[1..][j - 1];
              }
            }
          }
        }
      }
      r
  }
}
