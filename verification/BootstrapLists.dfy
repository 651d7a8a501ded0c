/**
  The ordered lists of a bootstrap beacon: how protocol/v0/bootstrap_beacon.go puts them in order and how
  bootstrap_beacon_validate.go reads them back.
*/
module BootstrapLists {
  import opened Bytes
  import opened Sorting
  import opened Cbor
  import opened CborParse
  import opened CborTheorems
  import opened CborFields
  import opened CborNested
  import Utf8

  const MAX_TEXT_BYTES := 128
  const MAX_TRANSPORT_BYTES := 32
  const MAX_URI_BYTES := 512
  const MAX_ENDPOINTS := 8

  // ---------------------------------------------------------------- text sets

  function TextLess(): (bytes, bytes) -> bool { (a: bytes, b: bytes) => Less(a, b) }

  lemma {:induction false} TextOrder()
    ensures StrictOrder(TextLess())
  {
    forall a: bytes ensures !TextLess()(a, a) { LessIrreflexive(a); }
    forall a: bytes, b: bytes, c: bytes | TextLess()(a, b) && TextLess()(b, c) ensures TextLess()(a, c) { LessTransitive(a, b, c); }
  }

  predicate TextOk(text: bytes) { 0 < |text| <= MAX_TEXT_BYTES }

  predicate TextsOk(values: seq<bytes>) {
    (forall i :: 0 <= i < |values| ==> TextOk(values[i])) && NoDuplicates(values)
  }

  /** normalizeOrderedTextSet: bounded, distinct texts in order. */
  function NormalizeTexts(values: seq<bytes>): Option<seq<bytes>> {
    if TextsOk(values) then Some(Sort(TextLess(), values)) else None
  }

  lemma {:induction false} SortedTexts(values: seq<bytes>)
    requires NoDuplicates(values)
    ensures Ascending(TextLess(), Sort(TextLess(), values))
    ensures forall t :: t in Sort(TextLess(), values) <==> t in values
  {
    TextOrder();
    forall i, j | 0 <= i < j < |values| ensures TextLess()(values[i], values[j]) || TextLess()(values[j], values[i]) {
      LessTotal(values[i], values[j]);
    }
    SortAscending(TextLess(), values);
    MultisetMembers(Sort(TextLess(), values), values);
  }

  /** A permutation repeats an element exactly if the original does. */
  lemma {:induction false} NoDuplicatesPermutation<T>(a: seq<T>, b: seq<T>)
    requires multiset(a) == multiset(b) && NoDuplicates(a)
    ensures NoDuplicates(b)
  {
    forall i, j | 0 <= i < j < |b| ensures b[i] != b[j] {
      if b[i] == b[j] {
        assert b == b[..j] + [b[j]] + b[j + 1..];
        assert multiset(b)[b[i]] >= 2 by { assert b[i] in b[..j]; }
        NoDuplicatesMultiplicity(a, b[i]);
        assert false;
      }
    }
  }

  lemma {:induction false} SameTexts(a: seq<bytes>, b: seq<bytes>)
    requires multiset(a) == multiset(b)
    ensures TextsOk(a) <==> TextsOk(b)
  {
    MultisetMembers(a, b);
    if NoDuplicates(a) {
      NoDuplicatesPermutation(a, b);
    }
    if NoDuplicates(b) {
      NoDuplicatesPermutation(b, a);
    }
    if TextsOk(a) {
      forall i | 0 <= i < |b| ensures TextOk(b[i]) { assert b[i] in a; }
    }
    if TextsOk(b) {
      forall i | 0 <= i < |a| ensures TextOk(a[i]) { assert a[i] in b; }
    }
  }

  lemma {:induction false} NoTexts()
    ensures TextsOk([])
  {
  }

  lemma {:induction false} TextsOkAppend(values: seq<bytes>, text: bytes)
    requires TextsOk(values)
    ensures TextsOk(values + [text]) <==> TextOk(text) && text !in values
  {
    var longer := values + [text];
    assert longer[|values|] == text && forall k :: 0 <= k < |values| ==> longer[k] == values[k];
  }

  lemma {:induction false} TextsOkPrefix(values: seq<bytes>, k: nat)
    requires k <= |values|
    ensures TextsOk(values) ==> TextsOk(values[..k])
  {
  }

  method NormalizeOrderedTextSet(values: seq<bytes>) returns (ordered: Option<seq<bytes>>)
    ensures ordered == NormalizeTexts(values)
  {
    var sorted := Sort(TextLess(), values);
    SameTexts(values, sorted);
    hide Sort, TextsOk, NoDuplicates;
    NoTexts();
    var seen: set<bytes>, i := {}, 0;
    while i < |sorted|
      invariant 0 <= i <= |sorted|
      invariant forall t :: t in seen <==> t in sorted[..i]
      invariant TextsOk(sorted[..i])
    {
      var value := sorted[i];
      assert sorted[..i + 1] == sorted[..i] + [value];
      TextsOkAppend(sorted[..i], value);
      TextsOkPrefix(sorted, i + 1);
      if |value| == 0 || |value| > MAX_TEXT_BYTES {
        return None;
      }
      if value in seen {
        return None;
      }
      seen := seen + {value};
      i := i + 1;
    }
    assert sorted[..i] == sorted;
    return Some(sorted);
  }

  /** stringArrayValue */
  function TextArray(values: seq<bytes>): Value {
    Array(seq(|values|, i requires 0 <= i < |values| => Text(values[i])))
  }

  predicate TextItems(items: seq<Value>) {
    forall i :: 0 <= i < |items| ==> items[i].Text? && TextOk(items[i].text)
  }

  function TextsOf(items: seq<Value>): seq<bytes>
    requires TextItems(items)
  {
    seq(|items|, i requires 0 <= i < |items| => items[i].text)
  }

  /** readBootstrapOrderedTextSet: bounded texts, each after the one before. */
  ghost function ReadTexts(v: Option<Value>, maxItems: nat): Option<seq<bytes>> {
    match v
    case Some(Array(items)) =>
      if 0 < |items| <= maxItems && TextItems(items) && Ascending(TextLess(), TextsOf(items)) then Some(TextsOf(items)) else None
    case _ => None
  }

  method ReadOrderedTextSet(v: Option<Value>, maxItems: nat) returns (values: Option<seq<bytes>>)
    ensures values == ReadTexts(v, maxItems)
  {
    if !(v.Some? && v.value.Array?) {
      return None;
    }
    var items := v.value.items;
    if |items| == 0 || |items| > maxItems {
      return None;
    }
    var texts: seq<bytes>, seen: set<bytes>, previous: bytes, i := [], {}, [], 0;
    while i < |items|
      invariant 0 <= i <= |items| && |texts| == i
      invariant forall k :: 0 <= k < i ==> items[k].Text? && TextOk(items[k].text) && texts[k] == items[k].text
      invariant Ascending(TextLess(), texts)
      invariant forall t :: t in seen <==> t in texts
      invariant if i == 0 then previous == [] else previous == texts[i - 1]
    {
      var item := items[i];
      if !item.Text? || item.text == [] || |item.text| > MAX_TEXT_BYTES {
        return None;
      }
      var text := item.text;
      var before := Less(text, previous);
      if text in seen || before {
        NotAscending(items, texts, text, i);
        return None;
      }
      TextOrder();
      LessTotal(previous, text);
      AppendAscending(TextLess(), texts, text);
      texts := texts + [text];
      seen := seen + {text};
      previous := text;
      i := i + 1;
    }
    assert texts == TextsOf(items);
    return Some(texts);
  }

  lemma {:induction false} NotBoth(a: bytes, b: bytes)
    ensures !(Less(a, b) && Less(b, a))
  {
    if Less(a, b) && Less(b, a) {
      LessTransitive(a, b, a);
      LessIrreflexive(a);
    }
  }

  /** Appending to an ascending sequence needs a look at its last element only. */
  lemma {:induction false} AppendAscending<T(!new)>(less: (T, T) -> bool, s: seq<T>, x: T)
    requires StrictOrder(less) && Ascending(less, s) && (s != [] ==> less(s[|s| - 1], x))
    ensures Ascending(less, s + [x])
  {
    forall i | 0 <= i < |s| ensures less(s[i], x) {
      if i < |s| - 1 {
        assert less(s[i], s[|s| - 1]);
      }
    }
  }

  lemma {:induction false} NotAscending(items: seq<Value>, texts: seq<bytes>, text: bytes, i: nat)
    requires i < |items| && |texts| == i && items[i].Text? && items[i].text == text
    requires forall k :: 0 <= k < i ==> items[k].Text? && texts[k] == items[k].text
    requires text in texts || (i > 0 && Less(text, texts[i - 1])) || (i == 0 && Less(text, []))
    ensures !(TextItems(items) && Ascending(TextLess(), TextsOf(items)))
  {
    TextOrder();
    if TextItems(items) {
      var all := TextsOf(items);
      if text in texts {
        var k :| 0 <= k < i && texts[k] == text;
        assert !TextLess()(all[k], all[i]);
      } else {
        assert TextLess()(all[i], all[i - 1]);
        NotBoth(all[i - 1], all[i]);
      }
    }
  }

  /** Ordered texts are read back as they are, if they are not too many. */
  lemma {:induction false} OrderedTextsReadBack(values: seq<bytes>, maxItems: nat)
    requires values != [] && TextsOk(values) && Ascending(TextLess(), values)
    ensures ReadTexts(Some(TextArray(values)), maxItems) == if |values| <= maxItems then Some(values) else None
  {
    var items := TextArray(values).items;
    assert TextItems(items) && TextsOf(items) == values;
  }

  /** What normalising makes of a set is ordered, bounded and has the same members. */
  lemma {:induction false} NormalizedTexts(values: seq<bytes>)
    requires NormalizeTexts(values).Some?
    ensures var sorted := NormalizeTexts(values).value;
            && TextsOk(sorted) && Ascending(TextLess(), sorted) && |sorted| == |values|
            && forall t :: t in sorted <==> t in values
  {
    var sorted := NormalizeTexts(values).value;
    SortedTexts(values);
    NoDuplicatesPermutation(values, sorted);
    forall i | 0 <= i < |sorted| ensures TextOk(sorted[i]) {
      assert sorted[i] in values;
    }
  }

  /** A normalised set of not too many texts is read back as it is. */
  lemma {:induction false} TextsReadBack(values: seq<bytes>, maxItems: nat)
    requires NormalizeTexts(values).Some? && values != []
    ensures ReadTexts(Some(TextArray(NormalizeTexts(values).value)), maxItems)
         == if |values| <= maxItems then NormalizeTexts(values) else None
  {
    NormalizedTexts(values);
    OrderedTextsReadBack(NormalizeTexts(values).value, maxItems);
  }

  lemma {:induction false} TextArrayNormal(values: seq<bytes>)
    ensures Normalize(TextArray(values)) == TextArray(values)
    ensures (forall i :: 0 <= i < |values| ==> TextOk(values[i])) ==>
              Encode(TextArray(values)).Some? && Size(TextArray(values)) <= 9 + |values| * 137
  {
    var items := TextArray(values).items;
    assert NormalizeItems(items) == items;
    if forall i :: 0 <= i < |values| ==> TextOk(values[i]) {
      forall i | 0 <= i < |items| ensures Encode(items[i]).Some? && Size(items[i]) <= 137 {
        HeaderSize(3, |values[i]|);
      }
      ArraySize(items, 137);
    }
  }

  /** Which normalised sets the decoder's limits admit. */
  lemma {:induction false} TextArrayInLimits(values: seq<bytes>)
    requires forall i :: 0 <= i < |values| ==> TextOk(values[i])
    ensures InLimits(TextArray(values), 1, Wire(MAX_STRING_BYTES))
       <==> |values| <= MAX_ENTRIES && forall t :: t in values ==> Utf8.Valid(t)
  {
    var items := TextArray(values).items;
    if InLimits(TextArray(values), 1, Wire(MAX_STRING_BYTES)) {
      forall t | t in values ensures Utf8.Valid(t) {
        var i :| 0 <= i < |values| && values[i] == t;
        assert InLimits(items[i], 2, Wire(MAX_STRING_BYTES));
      }
    }
    if |values| <= MAX_ENTRIES && forall t :: t in values ==> Utf8.Valid(t) {
      forall i | 0 <= i < |items| ensures InLimits(items[i], 2, Wire(MAX_STRING_BYTES)) {
        assert values[i] in values;
      }
    }
  }
}
